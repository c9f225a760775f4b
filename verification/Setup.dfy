/**
 Provisioning: what one setup makes of the environment it finds, and that doing it again
 changes nothing.
 */
module Setup {
  import opened Wrappers
  import opened Text
  import opened Quoting
  import opened Paths
  import opened SetupValues

  type Values = map<Key, Value>

  /** The trimmed, lower-case server name, the database path and the trimmed port. */
  datatype Options = Options(serverName: string, databasePath: Value, port: string)

  /** What is drawn at random when a secret is missing. */
  datatype Random = Random(privateKey: Value, jwt: Value, metrics: Value, shield: Value, epoch: Value)

  /** The rest of the world: the working directory, lower-casing, and what an address means. */
  datatype World = World(cwd: Value, lower: char -> char, unicast: Value -> bool, unspecified: Value -> bool)

  const HASH_BYTES := 32
  const KEY_BYTES := 64
  const MIN_SECRET := 32

  /** The settings that are spelled out. */
  datatype Texts = Texts(no: Value, yes: Value, loopback: Value, sqlite: Value, truths: set<Value>, port: Value)

  const TEXTS := Texts(Units("false"), Units("true"), Units("127.0.0.1"), Units("sqlite"),
                       {Units("1"), Units("true"), Units("yes")}, Units("8080"))

  // ----- Checks

  predicate IsNameChar(c: char) { 'a' <= c <= 'z' || '0' <= c <= '9' || c == '-' }

  predicate IsLabel(part: string) {
    && 0 < |part| <= 63 && part[0] != '-' && part[|part| - 1] != '-'
    && forall i :: 0 <= i < |part| ==> IsNameChar(part[i])
  }

  predicate ValidServerName(name: string) {
    var parts := Split(name, '.');
    |name| <= 253 && |parts| > 1 && forall i :: 0 <= i < |parts| ==> IsLabel(parts[i])
  }

  function Lower(lower: char -> char, v: Value): Value {
    if v == [] then [] else [if v[0].Rune? then Rune(lower(v[0].c)) else v[0]] + Lower(lower, v[1..])
  }

  function Port(options: Options): string { if options.port == "" then "8080" else options.port }

  predicate ValidPort(port: string) { ParseInt64(port).Some? && 1 <= ParseInt64(port).value <= 65535 }

  predicate IsHex(v: Value) { forall i :: 0 <= i < |v| ==> v[i].Rune? && DigitValue(v[i].c).Some? }

  /** Hexadecimal for this many bytes. */
  predicate Encodes(v: Value, bytes: nat) { IsHex(v) && |v| == 2 * bytes }

  function Bytes(u: Unit): nat { if u.Raw? then 1 else Width(u.c) }

  function Length(v: Value): nat { if v == [] then 0 else Bytes(v[0]) + Length(v[1..]) }

  predicate Long(v: Value) { Length(v) >= MIN_SECRET }

  predicate Strong(v: Value) { v == [] || Long(v) }

  predicate EncodesUnlessBlank(v: Value, bytes: nat) { Blank(v) || Encodes(TrimSpace(v), bytes) }

  /** Seen from outside, a variable that is not there is empty. */
  function Of(values: Values, key: Key): Value { if key in values then values[key] else [] }

  /** The secrets already there are usable. */
  predicate SecretsAreValid(values: Values) {
    && EncodesUnlessBlank(Of(values, PrivateKey), KEY_BYTES) && EncodesUnlessBlank(Of(values, EpochSecret), HASH_BYTES)
    && Strong(Of(values, JwtSecret)) && Strong(Of(values, MetricsToken)) && Strong(Of(values, ShieldSecret))
  }

  predicate EmptyOr(v: Value, expected: Value) { v == [] || v == expected }

  /** Another server's or another driver's file is refused. */
  predicate Compatible(texts: Texts, world: World, options: Options, values: Values) {
    && EmptyOr(Lower(world.lower, TrimSpace(Of(values, ServerName))), Units(options.serverName))
    && EmptyOr(Lower(world.lower, TrimSpace(Of(values, DbDriver))), texts.sqlite)
  }

  // ----- Setup

  function SheetFor(texts: Texts, options: Options, asked: Value, random: Random): Sheet<Value> {
    Sheet(texts.no, texts.yes, texts.loopback, texts.sqlite, Units(options.serverName), Units(Port(options)), asked,
          random.privateKey, random.jwt, random.metrics, random.shield, random.epoch, [], Blank, Long)
  }

  predicate Admissible(texts: Texts, world: World, options: Options, values: Values) {
    && ValidServerName(options.serverName) && ValidPort(Port(options)) && Compatible(texts, world, options, values)
      && SecretsAreValid(values)
  }

  predicate Writable(values: Values) { forall key :: key in values ==> Unbroken(values[key]) }

  // ----- The production checks

  function TextOf(v: Value): Option<string> {
    if v == [] then Some("")
    else if v[0].Raw? || TextOf(v[1..]).None? then None
    else Some([v[0].c] + TextOf(v[1..]).value)
  }

  predicate PortOk(v: Value) { TextOf(v).Some? && ValidPort(TextOf(v).value) }

  /** What the production checks look at, which is every variable but the database path. */
  datatype Seen = Seen(devMode: Value, driver: Value, name: Value, address: Value, publicBind: Value, port: Value,
                       metrics: Value, shield: Value, jwt: Value, legacy: Value, privateKey: Value, epoch: Value)

  function SeenIn(values: Values): Seen {
    Seen(Of(values, DevMode), Of(values, DbDriver), Of(values, ServerName), Of(values, BindAddress),
         Of(values, AllowPublicBind), Of(values, ServerPort), Of(values, MetricsToken), Of(values, ShieldSecret),
         Of(values, JwtSecret), Of(values, LegacyJwtSecret), Of(values, PrivateKey), Of(values, EpochSecret))
  }

  /** A blank variable counts as its fallback, another is trimmed and lower-cased. */
  function Normal(world: World, v: Value, fallback: Value): Value {
    if Blank(v) then fallback else Lower(world.lower, TrimSpace(v))
  }

  predicate Flag(texts: Texts, world: World, v: Value) { Lower(world.lower, TrimSpace(v)) in texts.truths }

  predicate NameOk(world: World, v: Value) {
    var name := TextOf(Lower(world.lower, TrimSpace(v)));
    name.Some? && ValidServerName(name.value)
  }

  predicate SecretsPass(seen: Seen) {
    && Long(TrimSpace(seen.metrics)) && Long(TrimSpace(seen.shield))
    && (Long(TrimSpace(seen.jwt)) || Long(TrimSpace(seen.legacy)))
    && Encodes(TrimSpace(seen.privateKey), KEY_BYTES) && Encodes(TrimSpace(seen.epoch), HASH_BYTES)
  }

  predicate AddressOk(texts: Texts, world: World, seen: Seen) {
    var address := Normal(world, seen.address, texts.loopback);
    world.unicast(address) && (world.unspecified(address) ==> Flag(texts, world, seen.publicBind))
  }

  /** `ValidateProductionEnvironment`; a blank database path has a fallback, so no path fails. */
  predicate Production(texts: Texts, world: World, seen: Seen) {
    || Flag(texts, world, seen.devMode)
    || (&& Normal(world, seen.driver, texts.sqlite) == texts.sqlite
        && SecretsPass(seen) && NameOk(world, seen.name) && AddressOk(texts, world, seen)
        && PortOk(Normal(world, seen.port, texts.port)))
  }

  /** Given all assignments: the path is normalised, and what can be written is. */
  function Finished(cwd: Value, made: Values): Option<Values>
    requires Rooted(cwd)
  {
    var path := Normalized(cwd, Of(made, DbPath));
    if path.None? then None
    else
      var done := made[DbPath := path.value];
      if Writable(done) then Some(done) else None
  }

  function SetUpWith(texts: Texts, world: World, options: Options, values: Values, random: Random): Option<Values>
    requires Rooted(world.cwd)
  {
    var asked := Normalized(world.cwd, options.databasePath);
    if asked.None? || !Admissible(texts, world, options, values) then None
    else
      var made := After(SheetFor(texts, options, asked.value, random), values);
      if Production(texts, world, SeenIn(made)) then Finished(world.cwd, made) else None
  }

  /** Setup as a whole: what it writes, or `None` for any of its errors. */
  function SetUp(world: World, options: Options, values: Values, random: Random): Option<Values>
    requires Rooted(world.cwd)
  {
    SetUpWith(TEXTS, world, options, values, random)
  }

  method Check(texts: Texts, world: World, options: Options, values: Values) returns (ok: bool)
    ensures ok == Admissible(texts, world, options, values)
  {
    if !ValidServerName(options.serverName) {
      return false;
    }
    if !ValidPort(Port(options)) {
      return false;
    }
    if !Compatible(texts, world, options, values) {
      return false;
    }
    return SecretsAreValid(values);
  }

  method Finish(texts: Texts, world: World, made: Values) returns (r: Option<Values>)
    requires Rooted(world.cwd)
    ensures r == if Production(texts, world, SeenIn(made)) then Finished(world.cwd, made) else None
  {
    if !Production(texts, world, SeenIn(made)) {
      return None;
    }
    var path := Normalized(world.cwd, Of(made, DbPath));
    if path.None? {
      return None;
    }
    var done := made[DbPath := path.value];
    if !Writable(done) {
      return None;
    }
    return Some(done);
  }

  method RunSetup(world: World, options: Options, values: Values, random: Random) returns (r: Option<Values>)
    requires Rooted(world.cwd)
    ensures r == SetUp(world, options, values, random)
  {
    var asked := Normalized(world.cwd, options.databasePath);
    if asked.None? {
      return None;
    }
    var ok := Check(TEXTS, world, options, values);
    if !ok {
      return None;
    }
    var sheet := SheetFor(TEXTS, options, asked.value, random);
    var made := MakeAll(sheet, values);
    r := Finish(TEXTS, world, made);
  }

  // ----- Doing it again

  /** ASCII is lower-cased as usual, the loopback address is an address, the working directory an absolute path. */
  ghost predicate Lawful(world: World) {
    && Rooted(world.cwd) && LowersAscii(world.lower)
    && world.unicast(TEXTS.loopback) && !world.unspecified(TEXTS.loopback)
  }

  predicate Generated(random: Random) {
    && Encodes(random.privateKey, KEY_BYTES) && Encodes(random.jwt, 32) && Encodes(random.metrics, 32)
    && Encodes(random.shield, 32) && Encodes(random.epoch, HASH_BYTES)
  }

  lemma {:induction false} LowerIsSame(lower: char -> char, s: string)
    requires LowersAscii(lower)
    requires forall i :: 0 <= i < |s| ==> IsNameChar(s[i]) || s[i] == '.'
    ensures Lower(lower, Units(s)) == Units(s)
  {
    if s != [] {
      LowerIsSame(lower, s[1..]);
      assert Units(s)[1..] == Units(s[1..]);
    }
  }

  lemma {:induction false} UnitsAt(s: string)
    ensures |Units(s)| == |s| && forall i :: 0 <= i < |s| ==> Units(s)[i] == Rune(s[i])
  {
    if s != [] {
      UnitsAt(s[1..]);
    }
  }

  lemma {:induction false} SplitCovers(s: string, sep: char, i: nat)
    requires i < |s| && s[i] != sep
    ensures exists p, j :: 0 <= p < |Split(s, sep)| && 0 <= j < |Split(s, sep)[p]| && Split(s, sep)[p][j] == s[i]
    decreases |s|
  {
    var n := IndexOf(s, sep);
    var parts := Split(s, sep);
    if i < n {
      assert parts[0][i] == s[i];
    } else {
      SplitCovers(s[n + 1..], sep, i - n - 1);
      var p, j :| 0 <= p < |Split(s[n + 1..], sep)| && 0 <= j < |Split(s[n + 1..], sep)[p]|
        && Split(s[n + 1..], sep)[p][j] == s[i];
      assert parts[p + 1][j] == s[i];
    }
  }

  lemma NameIsPlain(name: string)
    requires ValidServerName(name)
    ensures forall i :: 0 <= i < |name| ==> IsNameChar(name[i]) || name[i] == '.'
  {
    forall i | 0 <= i < |name| ensures IsNameChar(name[i]) || name[i] == '.' {
      if name[i] != '.' {
        SplitCovers(name, '.', i);
      }
    }
  }

  lemma TrimIsSame(s: string)
    requires forall i :: 0 <= i < |s| ==> !IsSpace(s[i])
    ensures TrimSpace(Units(s)) == Units(s)
  {
    UnitsAt(s);
  }

  lemma NameIsCompatible(world: World, name: string)
    requires LowersAscii(world.lower) && forall i :: 0 <= i < |name| ==> IsNameChar(name[i]) || name[i] == '.'
    ensures Lower(world.lower, TrimSpace(Units(name))) == Units(name)
  {
    TrimIsSame(name);
    LowerIsSame(world.lower, name);
  }

  lemma {:induction false} LengthOfHex(v: Value)
    requires IsHex(v)
    ensures Length(v) == |v|
  {
    if v != [] {
      LengthOfHex(v[1..]);
    }
  }

  lemma HexIsNotBlank(v: Value, bytes: nat)
    requires Encodes(v, bytes) && bytes > 0
    ensures !Blank(v) && TrimSpace(v) == v && (bytes >= 32 ==> Long(v))
  {
    assert !IsBlank(v[0]) && !IsBlank(v[|v| - 1]);
    LengthOfHex(v);
  }

  lemma PortIsNotBlank(port: string)
    requires ValidPort(port)
    ensures !Blank(Units(port))
  {
    UnitsAt(port);
    assert port != [] && !IsSpace(port[0]);
    assert !IsBlank(Units(port)[0]);
  }

  /** What the proofs need of the spelled-out settings. */
  predicate Usable(texts: Texts, world: World) {
    !Blank(texts.no) && Lower(world.lower, TrimSpace(texts.sqlite)) == texts.sqlite
  }

  lemma TextsAreUsable(world: World)
    requires LowersAscii(world.lower)
    ensures Usable(TEXTS, world)
  {
    UnitsAt("false");
    assert !IsBlank(Units("false")[0]);
    NameIsCompatible(world, "sqlite");
  }

  lemma SheetFillsBlanks(texts: Texts, options: Options, asked: Value, random: Random)
    requires ValidPort(Port(options)) && !Blank(asked) && Generated(random) && !Blank(texts.no)
    ensures FillsBlanks(SheetFor(texts, options, asked, random))
  {
    PortIsNotBlank(Port(options));
    HexIsNotBlank(random.privateKey, KEY_BYTES);
    HexIsNotBlank(random.jwt, 32);
    HexIsNotBlank(random.metrics, 32);
    HexIsNotBlank(random.shield, 32);
    HexIsNotBlank(random.epoch, HASH_BYTES);
  }

  /** What is left of a secret is as usable as what was there or drawn. */
  lemma FilledIsValid(v: Value, drawn: Value, bytes: nat)
    requires EncodesUnlessBlank(v, bytes) && Encodes(drawn, bytes) && bytes > 0
    ensures EncodesUnlessBlank(if Blank(v) then drawn else v, bytes)
  {
    HexIsNotBlank(drawn, bytes);
  }

  /** One variable of what was made. */
  lemma MadeAt(sheet: Sheet<Value>, values: Values, key: Key)
    requires sheet.empty == []
    ensures Of(After(sheet, values), key) == Left(sheet, values, key)
  {
    AfterIsAssigned(sheet, values);
    assert AssignedAt(sheet, values, After(sheet, values), key);
  }

  lemma EncodedStaysValid(sheet: Sheet<Value>, values: Values, key: Key, bytes: nat)
    requires sheet.empty == [] && sheet.blank == Blank && (key.PrivateKey? || key.EpochSecret?) && bytes > 0
    requires EncodesUnlessBlank(Of(values, key), bytes) && Encodes(Default(sheet, key), bytes)
    ensures EncodesUnlessBlank(Of(After(sheet, values), key), bytes)
  {
    MadeAt(sheet, values, key);
    FilledIsValid(Of(values, key), Default(sheet, key), bytes);
  }

  lemma StrongStays(sheet: Sheet<Value>, values: Values, key: Key)
    requires sheet.empty == [] && sheet.blank == Blank && sheet.long == Long && IsDrawn(key)
    requires Strong(Of(values, key)) && Long(Drawn(sheet, key))
    ensures Strong(Of(After(sheet, values), key))
  {
    MadeAt(sheet, values, key);
  }

  lemma EncodedStay(texts: Texts, options: Options, asked: Value, values: Values, random: Random)
    requires EncodesUnlessBlank(Of(values, PrivateKey), KEY_BYTES)
             && EncodesUnlessBlank(Of(values, EpochSecret), HASH_BYTES)
    requires Encodes(random.privateKey, KEY_BYTES) && Encodes(random.epoch, HASH_BYTES)
    ensures var made := After(SheetFor(texts, options, asked, random), values);
            EncodesUnlessBlank(Of(made, PrivateKey), KEY_BYTES) && EncodesUnlessBlank(Of(made, EpochSecret), HASH_BYTES)
  {
    var sheet := SheetFor(texts, options, asked, random);
    EncodedStaysValid(sheet, values, PrivateKey, KEY_BYTES);
    EncodedStaysValid(sheet, values, EpochSecret, HASH_BYTES);
  }

  lemma StrongStay(texts: Texts, options: Options, asked: Value, values: Values, random: Random)
    requires Strong(Of(values, JwtSecret)) && Strong(Of(values, MetricsToken)) && Strong(Of(values, ShieldSecret))
    requires Long(random.jwt) && Long(random.metrics) && Long(random.shield)
    ensures var made := After(SheetFor(texts, options, asked, random), values);
            Strong(Of(made, JwtSecret)) && Strong(Of(made, MetricsToken)) && Strong(Of(made, ShieldSecret))
  {
    var sheet := SheetFor(texts, options, asked, random);
    StrongStays(sheet, values, JwtSecret);
    StrongStays(sheet, values, MetricsToken);
    StrongStays(sheet, values, ShieldSecret);
  }

  lemma SecretsStayValid(texts: Texts, options: Options, asked: Value, values: Values, random: Random)
    requires SecretsAreValid(values) && Generated(random)
    ensures SecretsAreValid(After(SheetFor(texts, options, asked, random), values))
  {
    HexIsNotBlank(random.jwt, 32);
    HexIsNotBlank(random.metrics, 32);
    HexIsNotBlank(random.shield, 32);
    EncodedStay(texts, options, asked, values, random);
    StrongStay(texts, options, asked, values, random);
  }

  lemma NameStays(sheet: Sheet<Value>, world: World, values: Values, name: string)
    requires LowersAscii(world.lower) && ValidServerName(name) && sheet.empty == [] && sheet.name == Units(name)
    ensures Lower(world.lower, TrimSpace(Of(After(sheet, values), ServerName))) == Units(name)
  {
    MadeAt(sheet, values, ServerName);
    NameIsPlain(name);
    NameIsCompatible(world, name);
  }

  lemma DriverStays(sheet: Sheet<Value>, values: Values)
    requires sheet.empty == []
    ensures Of(After(sheet, values), DbDriver) == sheet.sqlite
  {
    MadeAt(sheet, values, DbDriver);
  }

  lemma StaysCompatible(texts: Texts, world: World, options: Options, asked: Value, values: Values, random: Random)
    requires Lawful(world) && Usable(texts, world) && ValidServerName(options.serverName)
    ensures Compatible(texts, world, options, After(SheetFor(texts, options, asked, random), values))
  {
    var sheet := SheetFor(texts, options, asked, random);
    NameStays(sheet, world, values, options.serverName);
    DriverStays(sheet, values);
  }

  lemma OfOther(values: Values, path: Value, key: Key)
    requires key != DbPath
    ensures Of(values[DbPath := path], key) == Of(values, key)
  {
  }

  lemma PathIsNotAsked(texts: Texts, world: World, options: Options, values: Values, path: Value)
    requires Admissible(texts, world, options, values)
    ensures Admissible(texts, world, options, values[DbPath := path])
  {
    OfOther(values, path, ServerName);
    OfOther(values, path, DbDriver);
    OfOther(values, path, PrivateKey);
    OfOther(values, path, EpochSecret);
    OfOther(values, path, JwtSecret);
    OfOther(values, path, MetricsToken);
    OfOther(values, path, ShieldSecret);
  }

  lemma StaysAdmissible(texts: Texts, world: World, options: Options, asked: Value, values: Values, random: Random,
                        path: Value)
    requires Lawful(world) && Usable(texts, world) && Admissible(texts, world, options, values) && Generated(random)
    ensures Admissible(texts, world, options, After(SheetFor(texts, options, asked, random), values)[DbPath := path])
  {
    SecretsStayValid(texts, options, asked, values, random);
    StaysCompatible(texts, world, options, asked, values, random);
    PathIsNotAsked(texts, world, options, After(SheetFor(texts, options, asked, random), values), path);
  }

  lemma PathTwice(cwd: Value, path: Value, once: Value)
    requires Rooted(cwd) && Normalized(cwd, path) == Some(once) && Unbroken(once)
    ensures !Blank(once) && Normalized(cwd, once).Some? && Unbroken(Normalized(cwd, once).value)
    ensures Normalized(cwd, once) == Some(once) <==> !KeptEndsBlank(cwd, path)
  {
    NormalizedIsRooted(cwd, path);
    NormalizedTwice(cwd, path);
  }

  /** No production check looks at the path. */
  lemma PathIsNotSeen(values: Values, path: Value)
    ensures SeenIn(values[DbPath := path]) == SeenIn(values)
  {
  }

  lemma FinishedTwice(cwd: Value, made: Values)
    requires Rooted(cwd) && Finished(cwd, made).Some?
    ensures var done := Finished(cwd, made).value;
            && DbPath in done && !Blank(done[DbPath]) && done == made[DbPath := done[DbPath]]
            && Finished(cwd, done).Some? && (Finished(cwd, done) == Some(done) <==>
                                               !KeptEndsBlank(cwd, Of(made, DbPath)))
  {
    var done := Finished(cwd, made).value;
    PathTwice(cwd, Of(made, DbPath), done[DbPath]);
    var twice := done[DbPath := Normalized(cwd, done[DbPath]).value];
    assert Finished(cwd, done) == Some(twice);
    assert twice == done <==> twice[DbPath] == done[DbPath];
  }

  /** The path setup starts from: the one there, or the one asked for. */
  function StartingPath(world: World, options: Options, values: Values): Value
    requires Rooted(world.cwd) && Normalized(world.cwd, options.databasePath).Some?
  {
    if Blank(Of(values, DbPath)) then Normalized(world.cwd, options.databasePath).value else Of(values, DbPath)
  }

  /** On what it made before, setup does nothing but normalise the path again. */
  lemma SecondOnlyFinishes(texts: Texts, world: World, options: Options, asked: Value, values: Values, random: Random,
                           again: Random, path: Value)
    requires Lawful(world) && Usable(texts, world) && Generated(random) && Admissible(texts, world, options, values)
    requires Normalized(world.cwd, options.databasePath) == Some(asked) && !Blank(asked) && !Blank(path)
    requires Production(texts, world, SeenIn(After(SheetFor(texts, options, asked, random), values)))
    ensures var once := After(SheetFor(texts, options, asked, random), values)[DbPath := path];
            SetUpWith(texts, world, options, once, again) == Finished(world.cwd, once)
  {
    var a, b := SheetFor(texts, options, asked, random), SheetFor(texts, options, asked, again);
    PathIsNotSeen(After(a, values), path);
    SheetFillsBlanks(texts, options, asked, random);
    StaysAdmissible(texts, world, options, asked, values, random, path);
    MadeTwice(a, b, values, path);
  }

  lemma MadeStartingPath(texts: Texts, world: World, options: Options, asked: Value, values: Values, random: Random)
    requires Rooted(world.cwd) && Normalized(world.cwd, options.databasePath) == Some(asked)
    ensures Of(After(SheetFor(texts, options, asked, random), values), DbPath) == StartingPath(world, options, values)
  {
    MadeAt(SheetFor(texts, options, asked, random), values, DbPath);
  }

  lemma SetupTwiceWith(texts: Texts, world: World, options: Options, values: Values, random: Random, again: Random)
    requires Lawful(world) && Usable(texts, world) && Generated(random)
             && SetUpWith(texts, world, options, values, random).Some?
    ensures var once := SetUpWith(texts, world, options, values, random).value;
            && SetUpWith(texts, world, options, once, again).Some?
            && (SetUpWith(texts, world, options, once, again) == Some(once) <==>
                  !KeptEndsBlank(world.cwd, StartingPath(world, options, values)))
  {
    var asked := Normalized(world.cwd, options.databasePath).value;
    NormalizedIsRooted(world.cwd, options.databasePath);
    var made := After(SheetFor(texts, options, asked, random), values);
    MadeStartingPath(texts, world, options, asked, values, random);
    FinishedTwice(world.cwd, made);
    SecondOnlyFinishes(texts, world, options, asked, values, random, again, Finished(world.cwd, made).value[DbPath]);
  }

  /** A second setup on the map of the first, with the same options, succeeds whatever it draws. It leaves the
      same map exactly when the last part kept of the path setup starts from does not end in white space. */
  lemma SetupTwice(world: World, options: Options, values: Values, random: Random, again: Random)
    requires Lawful(world) && Generated(random) && SetUp(world, options, values, random).Some?
    ensures var once := SetUp(world, options, values, random).value;
            && SetUp(world, options, once, again).Some?
            && (SetUp(world, options, once, again) == Some(once) <==>
                  !KeptEndsBlank(world.cwd, StartingPath(world, options, values)))
  {
    TextsAreUsable(world);
    SetupTwiceWith(TEXTS, world, options, values, random, again);
  }

  lemma KeptAt(sheet: Sheet<Value>, values: Values, path: Value, key: Key)
    requires sheet.empty == [] && sheet.blank == Blank
             && ((IsSecret(key) && !Blank(Of(values, key))) || !IsManaged(key))
    ensures Of(After(sheet, values)[DbPath := path], key) == Of(values, key)
  {
    MadeAt(sheet, values, key);
    OfOther(After(sheet, values), path, key);
  }

  lemma KeepsSecretsWith(texts: Texts, world: World, options: Options, values: Values, random: Random, key: Key)
    requires Rooted(world.cwd) && SetUpWith(texts, world, options, values, random).Some?
    requires (IsSecret(key) && !Blank(Of(values, key))) || !IsManaged(key)
    ensures Of(SetUpWith(texts, world, options, values, random).value, key) == Of(values, key)
  {
    var asked := Normalized(world.cwd, options.databasePath).value;
    var sheet := SheetFor(texts, options, asked, random);
    var path := Normalized(world.cwd, Of(After(sheet, values), DbPath)).value;
    KeptAt(sheet, values, path, key);
  }

  /** No secret that is there changes, nor any variable setup does not know. */
  lemma SetupKeepsSecrets(world: World, options: Options, values: Values, random: Random, key: Key)
    requires Rooted(world.cwd) && SetUp(world, options, values, random).Some?
    requires (IsSecret(key) && !Blank(Of(values, key))) || !IsManaged(key)
    ensures Of(SetUp(world, options, values, random).value, key) == Of(values, key)
  {
    KeepsSecretsWith(TEXTS, world, options, values, random, key);
  }
}
