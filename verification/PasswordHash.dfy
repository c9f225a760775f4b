/**
 Password hashes in the PHC string format: printing, verifying, and the rehash at login.
 */
module PasswordHash {
  import opened Wrappers
  import opened Text
  import Base64

  const MAX_UINT32: nat := 0xFFFF_FFFF
  const MIN_PASSWORD := 12
  const MAX_PASSWORD := 512
  const VERSION := 19
  const ALGORITHM := "argon2id"

  datatype Params = Params(memory: nat, iterations: nat, parallelism: nat, keyLen: nat, saltLen: nat)

  const DEFAULT := Params(65536, 3, 4, 32, 16)

  /** Non-zero, and within the widths of the struct. */
  predicate Usable(p: Params) {
    0 < p.memory <= MAX_UINT32 && 0 < p.iterations <= MAX_UINT32 && 0 < p.parallelism <= 255
      && 0 < p.keyLen <= MAX_UINT32 && 0 < p.saltLen
  }

  datatype Error = InvalidFormat | AlgorithmMismatch | IncompatibleVersion | OtherError

  datatype Verdict = Match(rehash: bool) | Mismatch | Failed(error: Error)

  /** Argon2id and bcrypt as functions of what they are given. */
  datatype Crypto = Crypto(
    derive: (seq<Byte>, seq<Byte>, nat, nat, nat, nat) -> seq<Byte>,
    bcrypt: (seq<Byte>, string) -> Verdict)

  /** A derived key has the length asked for; a legacy match always asks for a rehash. */
  ghost predicate Lawful(c: Crypto) {
    && (forall password, salt, t: nat, m: nat, p: nat, n: nat :: |c.derive(password, salt, t, m, p, n)| == n)
    && (forall password, hash :: c.bcrypt(password, hash).Match? ==> c.bcrypt(password, hash).rehash)
  }

  // ----- Printing

  function Token(key: char, n: nat): string { [key] + ['='] + Decimal(n) }

  function Tokens(p: Params): seq<string> {
    [Token('m', p.memory), Token('t', p.iterations), Token('p', p.parallelism)]
  }

  function ParamsText(p: Params): string {
    Join(Tokens(p), ',')
  }

  const VERSION_TEXT := "v=" + Decimal(VERSION)

  function Pieces(p: Params, salt: seq<Byte>, key: seq<Byte>): seq<string> {
    ["", ALGORITHM, VERSION_TEXT, ParamsText(p), Base64.Encode(salt, false), Base64.Encode(key, false)]
  }

  function Encoded(p: Params, salt: seq<Byte>, key: seq<Byte>): string {
    Join(Pieces(p, salt, key), '$')
  }

  /** `HashPasswordWithParams`, given the random salt. */
  function Hash(c: Crypto, password: seq<Byte>, p: Params, salt: seq<Byte>): Option<string> {
    if |password| < MIN_PASSWORD || |password| > MAX_PASSWORD then None
    else Some(Encoded(p, salt, c.derive(password, salt, p.iterations, p.memory, p.parallelism, p.keyLen)))
  }

  // ----- Parameters

  /** One token read into the parameters; a later token of a name wins. */
  function SetParam(p: Params, token: string): Option<Params> {
    match Cut(token, '=')
    case None => None
    case Some((key, text)) =>
      var val := ParseUint(text, MAX_UINT32);
      if val.None? then None
      else if key == "m" then Some(p.(memory := val.value))
      else if key == "t" then Some(p.(iterations := val.value))
      else if key == "p" && val.value <= 255 then Some(p.(parallelism := val.value))
      else None
  }

  function SetParams(p: Params, tokens: seq<string>): Option<Params>
    decreases |tokens|
  {
    if tokens == [] then Some(p)
    else
      var q := SetParam(p, tokens[0]);
      if q.None? then None else SetParams(q.value, tokens[1..])
  }

  const ZERO := Params(0, 0, 0, 0, 0)

  function ParsedParams(text: string): Option<Params> {
    var p := SetParams(ZERO, Split(text, ','));
    if p.Some? && p.value.memory != 0 && p.value.iterations != 0 && p.value.parallelism != 0 then p else None
  }

  method ParseParams(text: string) returns (r: Option<Params>)
    ensures r == ParsedParams(text)
  {
    var params := ZERO;
    var tokens := Split(text, ',');
    for i := 0 to |tokens|
      invariant SetParams(ZERO, tokens) == SetParams(params, tokens[i..])
    {
      assert tokens[i..][0] == tokens[i] && tokens[i..][1..] == tokens[i + 1..];
      var kv := Cut(tokens[i], '=');
      if kv.None? {
        return None;
      }
      var val := ParseUint(kv.value.1, MAX_UINT32);
      if val.None? {
        return None;
      }
      if kv.value.0 == "m" {
        params := params.(memory := val.value);
      } else if kv.value.0 == "t" {
        params := params.(iterations := val.value);
      } else if kv.value.0 == "p" {
        if val.value > 255 {
          return None;
        }
        params := params.(parallelism := val.value);
      } else {
        return None;
      }
    }
    if params.memory == 0 || params.iterations == 0 || params.parallelism == 0 {
      return None;
    }
    return Some(params);
  }

  // ----- Verifying

  function DecodeBase64(s: string): Option<seq<Byte>> {
    if Base64.Decode(s, false).Some? then Base64.Decode(s, false) else Base64.Decode(s, true)
  }

  predicate Differs(p: Params) {
    p.memory != DEFAULT.memory || p.iterations != DEFAULT.iterations || p.parallelism != DEFAULT.parallelism
      || p.keyLen != DEFAULT.keyLen
  }

  /** The checks up to the parameters. */
  function Checked(parts: seq<string>): Option<Error>
    requires |parts| == 6
  {
    if parts[1] != ALGORITHM then Some(AlgorithmMismatch)
    else if !("v=" <= parts[2]) then Some(InvalidFormat)
    else
      var version := ParseUint(parts[2][2..], MAX_UINT32);
      if version.None? then Some(InvalidFormat)
      else if version.value != VERSION then Some(IncompatibleVersion) else None
  }

  function Compared(c: Crypto, password: seq<Byte>, p: Params, salt: seq<Byte>, key: seq<Byte>): Verdict {
    if c.derive(password, salt, p.iterations, p.memory, p.parallelism, p.keyLen) != key then Mismatch
    else Match(Differs(p))
  }

  function VerifiedParts(c: Crypto, password: seq<Byte>, parts: seq<string>): Verdict
    requires |parts| == 6
  {
    var error, params := Checked(parts), ParsedParams(parts[3]);
    if error.Some? then Failed(error.value)
    else if params.None? then Failed(InvalidFormat)
    else
      var salt, key := DecodeBase64(parts[4]), DecodeBase64(parts[5]);
      if salt.None? || salt.value == [] || key.None? || key.value == [] then Failed(InvalidFormat)
      else Compared(c, password, params.value.(keyLen := |key.value|, saltLen := |salt.value|), salt.value, key.value)
  }

  function VerifiedArgon2id(c: Crypto, password: seq<Byte>, encoded: string): Verdict {
    var parts := Split(encoded, '$');
    if |parts| != 6 then Failed(InvalidFormat) else VerifiedParts(c, password, parts)
  }

  predicate IsArgon2id(encoded: string) { ['$'] + ALGORITHM + ['$'] <= encoded }

  predicate IsBcrypt(encoded: string) { "$2a$" <= encoded || "$2b$" <= encoded || "$2y$" <= encoded }

  /** `VerifyPassword`: by prefix. */
  function Verified(c: Crypto, password: seq<Byte>, encoded: string): Verdict {
    if IsArgon2id(encoded) then VerifiedArgon2id(c, password, encoded)
    else if IsBcrypt(encoded) then c.bcrypt(password, encoded)
    else Failed(InvalidFormat)
  }

  method VerifyArgon2id(c: Crypto, password: seq<Byte>, encoded: string) returns (v: Verdict)
    ensures v == VerifiedArgon2id(c, password, encoded)
  {
    var parts := Split(encoded, '$');
    if |parts| != 6 {
      return Failed(InvalidFormat);
    }
    if parts[1] != ALGORITHM {
      return Failed(AlgorithmMismatch);
    }
    if !("v=" <= parts[2]) {
      return Failed(InvalidFormat);
    }
    var version := ParseUint(parts[2][2..], MAX_UINT32);
    if version.None? {
      return Failed(InvalidFormat);
    }
    if version.value != VERSION {
      return Failed(IncompatibleVersion);
    }
    var params := ParseParams(parts[3]);
    if params.None? {
      return Failed(InvalidFormat);
    }
    var salt := DecodeBase64(parts[4]);
    if salt.None? || |salt.value| == 0 {
      return Failed(InvalidFormat);
    }
    var expected := DecodeBase64(parts[5]);
    if expected.None? || |expected.value| == 0 {
      return Failed(InvalidFormat);
    }
    var p := params.value.(keyLen := |expected.value|, saltLen := |salt.value|);
    var derived := c.derive(password, salt.value, p.iterations, p.memory, p.parallelism, p.keyLen);
    if expected.value != derived {
      return Mismatch;
    }
    return Match(p.memory != DEFAULT.memory || p.iterations != DEFAULT.iterations
                 || p.parallelism != DEFAULT.parallelism || p.keyLen != DEFAULT.keyLen);
  }

  // ----- Round trip

  lemma DecimalIsFree(n: nat, c: char)
    requires !IsDigit(c)
    ensures Free(Decimal(n), c)
  {
  }

  lemma TokenIsFree(key: char, n: nat, c: char)
    requires !IsDigit(c) && c != key && c != '='
    ensures Free(Token(key, n), c)
  {
    DecimalIsFree(n, c);
  }

  lemma CutToken(key: char, n: nat)
    requires key != '=' && n <= MAX_UINT32
    ensures Cut(Token(key, n), '=') == Some(([key], Decimal(n))) && ParseUint(Decimal(n), MAX_UINT32) == Some(n)
  {
    CutAt([key], '=', Decimal(n));
    ParseOfDecimal(n, MAX_UINT32);
  }

  lemma SplitParams(p: Params)
    ensures Split(ParamsText(p), ',') == Tokens(p)
  {
    TokenIsFree('m', p.memory, ',');
    TokenIsFree('t', p.iterations, ',');
    TokenIsFree('p', p.parallelism, ',');
    SplitOfJoin(Tokens(p), ',');
  }

  lemma SetEach(q: Params, key: char, n: nat)
    requires n <= MAX_UINT32 && (key == 'p' ==> n <= 255)
    ensures key == 'm' ==> SetParam(q, Token(key, n)) == Some(q.(memory := n))
    ensures key == 't' ==> SetParam(q, Token(key, n)) == Some(q.(iterations := n))
    ensures key == 'p' ==> SetParam(q, Token(key, n)) == Some(q.(parallelism := n))
  {
    if key == 'm' || key == 't' || key == 'p' {
      CutToken(key, n);
    }
  }

  lemma SetOneMore(q: Params, token: string, rest: seq<string>)
    ensures SetParams(q, [token] + rest) == if SetParam(q, token).None? then None
            else SetParams(SetParam(q, token).value, rest)
  {
    assert ([token] + rest)[1..] == rest;
  }

  lemma SetThree(p: Params)
    requires Usable(p)
    ensures SetParams(ZERO, Tokens(p)) == Some(Params(p.memory, p.iterations, p.parallelism, 0, 0))
  {
    var m, t, l := Token('m', p.memory), Token('t', p.iterations), Token('p', p.parallelism);
    var one, two, three := ZERO.(memory := p.memory), Params(p.memory, p.iterations, 0, 0, 0),
      Params(p.memory, p.iterations, p.parallelism, 0, 0);
    SetEach(ZERO, 'm', p.memory);
    SetEach(one, 't', p.iterations);
    SetEach(two, 'p', p.parallelism);
    SetOneMore(ZERO, m, [t, l]);
    SetOneMore(one, t, [l]);
    SetOneMore(two, l, []);
    assert [m] + [t, l] == Tokens(p) && [t] + [l] == [t, l] && [l] + [] == [l];
  }

  /** The printed parameters are read back. */
  lemma ParamsRoundTrip(p: Params)
    requires Usable(p)
    ensures ParsedParams(ParamsText(p)) == Some(Params(p.memory, p.iterations, p.parallelism, 0, 0))
  {
    SplitParams(p);
    SetThree(p);
  }

  lemma PiecesAreFree(p: Params, salt: seq<Byte>, key: seq<Byte>)
    ensures Free(ParamsText(p), '$') && Free(Base64.Encode(salt, false), '$') && Free(Base64.Encode(key, false), '$')
  {
    TokenIsFree('m', p.memory, '$');
    TokenIsFree('t', p.iterations, '$');
    TokenIsFree('p', p.parallelism, '$');
    JoinIsFree(Tokens(p), ',', '$');
    Base64.EncodeIsSymbols(salt, false);
    Base64.EncodeIsSymbols(key, false);
  }

  lemma VersionIsRight()
    ensures VERSION_TEXT == "v=19" && Free(VERSION_TEXT, '$') && Free(ALGORITHM, '$') && "v=" <= VERSION_TEXT
    ensures ParseUint(VERSION_TEXT[2..], MAX_UINT32) == Some(VERSION)
  {
    ParseOfDecimal(VERSION, MAX_UINT32);
    assert VERSION_TEXT[2..] == Decimal(VERSION);
    assert Decimal(19) == Decimal(1) + [Digit(9)] == "19";
  }

  lemma EncodedChecks(parts: seq<string>)
    requires |parts| == 6 && parts[1] == ALGORITHM && parts[2] == VERSION_TEXT
    ensures Checked(parts) == None
  {
    VersionIsRight();
  }

  lemma Decodes(b: seq<Byte>)
    ensures DecodeBase64(Base64.Encode(b, false)) == Some(b)
  {
    Base64.RoundTrip(b, false);
  }

  lemma PiecesVerify(c: Crypto, password: seq<Byte>, p: Params, salt: seq<Byte>, key: seq<Byte>)
    requires Usable(p) && salt != [] && key != []
    ensures VerifiedParts(c, password, Pieces(p, salt, key))
            == Compared(c, password, Params(p.memory, p.iterations, p.parallelism, |key|, |salt|), salt, key)
  {
    EncodedChecks(Pieces(p, salt, key));
    ParamsRoundTrip(p);
    Decodes(salt);
    Decodes(key);
  }

  lemma EncodedIsArgon2id(p: Params, salt: seq<Byte>, key: seq<Byte>)
    ensures IsArgon2id(Encoded(p, salt, key))
  {
    var pieces := Pieces(p, salt, key);
    var rest := Join(pieces[2..], '$');
    assert pieces[1..][1..] == pieces[2..] && pieces[1..][0] == ALGORITHM;
    assert Join(pieces[1..], '$') == ALGORITHM + ['$'] + rest;
    assert Encoded(p, salt, key) == [] + ['$'] + (ALGORITHM + ['$'] + rest);
    assert Encoded(p, salt, key) == ['$'] + ALGORITHM + ['$'] + rest;
  }

  /** A printed hash is taken apart into what it was printed from. */
  lemma EncodedVerifies(c: Crypto, password: seq<Byte>, p: Params, salt: seq<Byte>, key: seq<Byte>)
    requires Usable(p) && salt != [] && key != []
    ensures VerifiedArgon2id(c, password, Encoded(p, salt, key))
            == Compared(c, password, Params(p.memory, p.iterations, p.parallelism, |key|, |salt|), salt, key)
  {
    PiecesAreFree(p, salt, key);
    VersionIsRight();
    SplitOfJoin(Pieces(p, salt, key), '$');
    PiecesVerify(c, password, p, salt, key);
  }

  /** What was hashed verifies, and asks for a rehash exactly when a parameter is not the default. */
  lemma HashVerifies(c: Crypto, password: seq<Byte>, p: Params, salt: seq<Byte>)
    requires Lawful(c) && Usable(p) && |salt| == p.saltLen && MIN_PASSWORD <= |password| <= MAX_PASSWORD
    ensures Hash(c, password, p, salt).Some?
    ensures Verified(c, password, Hash(c, password, p, salt).value) == Match(Differs(p))
  {
    var key := c.derive(password, salt, p.iterations, p.memory, p.parallelism, p.keyLen);
    EncodedIsArgon2id(p, salt, key);
    EncodedVerifies(c, password, p, salt, key);
  }

  /** In numbers: 12 to 512 bytes are hashed, and the hash is current exactly with 64 MiB, three passes, four lanes
      and a key of 32 bytes. */
  lemma CurrentExactly(c: Crypto, password: seq<Byte>, p: Params, salt: seq<Byte>)
    requires Lawful(c) && Usable(p) && |salt| == p.saltLen
    ensures Hash(c, password, p, salt).Some? <==> 12 <= |password| <= 512
    ensures 12 <= |password| <= 512 ==>
              var v := Verified(c, password, Hash(c, password, p, salt).value);
              && v.Match?
              && (!v.rehash <==> p.memory == 65536 && p.iterations == 3 && p.parallelism == 4 && p.keyLen == 32)
  {
    if 12 <= |password| <= 512 {
      HashVerifies(c, password, p, salt);
    }
  }

  /** A hash of another version is refused as such, whatever its parameters. */
  lemma OtherVersionIsRefused(c: Crypto, password: seq<Byte>, n: nat, params: string, salt: string, key: string)
    requires n <= MAX_UINT32 && Free(params, '$') && Free(salt, '$') && Free(key, '$')
    ensures var hash := Join(["", "argon2id", Token('v', n), params, salt, key], '$');
            VerifiedArgon2id(c, password, hash) == Failed(IncompatibleVersion) <==> n != 19
  {
    var parts := ["", "argon2id", Token('v', n), params, salt, key];
    TokenIsFree('v', n, '$');
    SplitOfJoin(parts, '$');
    assert Token('v', n)[2..] == Decimal(n);
    ParseOfDecimal(n, MAX_UINT32);
  }

  lemma SecondPart(a: string, encoded: string)
    requires Free(a, '$') && ['$'] + a + ['$'] <= encoded
    ensures |Split(encoded, '$')| >= 3 && Split(encoded, '$')[1] == a
  {
    var rest := encoded[|a| + 2..];
    assert encoded == [] + ['$'] + (a + ['$'] + rest);
    SplitFirst([], '$', a + ['$'] + rest);
    SplitFirst(a, '$', rest);
  }

  /** What `VerifyPassword` hands on by its prefix is never refused for its algorithm. */
  lemma AlgorithmIsNeverMissed(c: Crypto, password: seq<Byte>, encoded: string)
    requires IsArgon2id(encoded)
    ensures VerifiedArgon2id(c, password, encoded) != Failed(AlgorithmMismatch)
  {
    VersionIsRight();
    SecondPart(ALGORITHM, encoded);
  }

  /** And another password gets through only if it derives the same key. */
  lemma OnlyTheKeyMatches(c: Crypto, password: seq<Byte>, other: seq<Byte>, p: Params, salt: seq<Byte>)
    requires Lawful(c) && Usable(p) && |salt| == p.saltLen && MIN_PASSWORD <= |password| <= MAX_PASSWORD
    ensures Verified(c, other, Hash(c, password, p, salt).value).Match? <==>
            c.derive(other, salt, p.iterations, p.memory, p.parallelism, p.keyLen)
            == c.derive(password, salt, p.iterations, p.memory, p.parallelism, p.keyLen)
  {
    var key := c.derive(password, salt, p.iterations, p.memory, p.parallelism, p.keyLen);
    EncodedIsArgon2id(p, salt, key);
    EncodedVerifies(c, other, p, salt, key);
  }

  /** `NeedsRehash`, which judges the string alone. */
  predicate NeedsRehash(encoded: string) {
    var parts := Split(encoded, '$');
    if !IsArgon2id(encoded) || |parts| != 6 then true
    else
      var p := ParsedParams(parts[3]);
      p.None? || p.value.memory != DEFAULT.memory || p.value.iterations != DEFAULT.iterations
        || p.value.parallelism != DEFAULT.parallelism
  }

  /** It agrees with verification on every printed hash unless the key length alone is off. */
  lemma NeedsRehashMissesTheKeyLength(c: Crypto, password: seq<Byte>, p: Params, salt: seq<Byte>)
    requires Lawful(c) && Usable(p) && |salt| == p.saltLen && MIN_PASSWORD <= |password| <= MAX_PASSWORD
    ensures var hash := Hash(c, password, p, salt).value;
            Verified(c, password, hash) == Match(NeedsRehash(hash)) <==>
                !(Differs(p) && !Differs(p.(keyLen := DEFAULT.keyLen)))
  {
    HashVerifies(c, password, p, salt);
    var key := c.derive(password, salt, p.iterations, p.memory, p.parallelism, p.keyLen);
    PiecesAreFree(p, salt, key);
    VersionIsRight();
    SplitOfJoin(Pieces(p, salt, key), '$');
    EncodedIsArgon2id(p, salt, key);
    ParamsRoundTrip(p);
  }

  /** The laws asked of the two algorithms do not contradict each other. */
  lemma LawsAreConsistent()
    ensures exists c :: Lawful(c)
  {
    var c := Crypto((password, salt, t, m, p, n: nat) => seq(n, i => 0), (password, hash) => Mismatch);
    assert Lawful(c);
  }

  // ----- Login

  /** What a login leaves in the account: `stored` says whether the update went through. */
  function AfterLogin(c: Crypto, hash: string, password: seq<Byte>, salt: seq<Byte>, stored: bool): string {
    var v, renewed := Verified(c, password, hash), Hash(c, password, DEFAULT, salt);
    if v.Match? && v.rehash && renewed.Some? && stored then renewed.value else hash
  }

  class Account {
    var hash: string

    constructor (initial: string)
      ensures hash == initial
    {
      hash := initial;
    }

    method Login(c: Crypto, password: seq<Byte>, salt: seq<Byte>, stored: bool) returns (ok: bool)
      modifies this
      ensures ok == Verified(c, password, old(hash)).Match?
      ensures hash == AfterLogin(c, old(hash), password, salt, stored)
    {
      var v := Verified(c, password, hash);
      if !v.Match? {
        return false;
      }
      if v.rehash {
        var renewed := Hash(c, password, DEFAULT, salt);
        if renewed.Some? && stored {
          hash := renewed.value;
        }
      }
      return true;
    }
  }

  /** After a successful login the password still works, and no rehash is asked for again
      exactly when none was, or the hash could be renewed. */
  lemma LoginSettles(c: Crypto, hash: string, password: seq<Byte>, salt: seq<Byte>, stored: bool)
    requires Lawful(c) && |salt| == DEFAULT.saltLen && Verified(c, password, hash).Match?
    ensures var after := Verified(c, password, AfterLogin(c, hash, password, salt, stored));
            && after.Match?
            && (!after.rehash <==>
                !Verified(c, password, hash).rehash || (stored && MIN_PASSWORD <= |password| <= MAX_PASSWORD))
  {
    if Verified(c, password, hash).rehash && stored && MIN_PASSWORD <= |password| <= MAX_PASSWORD {
      HashVerifies(c, password, DEFAULT, salt);
    }
  }

  /** From then on logins change nothing. */
  lemma LoginIsAFixedPoint(c: Crypto, hash: string, password: seq<Byte>, salt: seq<Byte>, again: seq<Byte>,
                           stored: bool)
    requires Lawful(c) && |salt| == DEFAULT.saltLen && MIN_PASSWORD <= |password| <= MAX_PASSWORD
    requires Verified(c, password, hash).Match?
    ensures var settled := AfterLogin(c, hash, password, salt, true);
            AfterLogin(c, settled, password, again, stored) == settled
  {
    LoginSettles(c, hash, password, salt, true);
  }
}
