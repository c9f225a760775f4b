/**
 When the production checks pass what setup has made: a condition on what it found.
 */
module SetupChecks {
  import opened Wrappers
  import opened Text
  import opened Quoting
  import opened Paths
  import opened SetupValues
  import opened Setup

  /** A secret that is kept must be long enough without the white space around it. */
  predicate KeptIsLong(v: Value) { Blank(v) || Long(TrimSpace(v)) }

  /** Of the token secret and its legacy form one must be, unless a new one is drawn. */
  predicate JwtPasses(values: Values) {
    var jwt, legacy := Of(values, JwtSecret), Of(values, LegacyJwtSecret);
    || Long(TrimSpace(legacy))
    || (if Blank(jwt) then Blank(legacy) || !Long(legacy) else Long(TrimSpace(jwt)))
  }

  predicate KeptPortPasses(world: World, v: Value) { Blank(v) || PortOk(Lower(world.lower, TrimSpace(v))) }

  predicate Passes(world: World, values: Values) {
    && KeptIsLong(Of(values, MetricsToken)) && KeptIsLong(Of(values, ShieldSecret)) && JwtPasses(values)
    && KeptPortPasses(world, Of(values, ServerPort))
  }

  // ----- Field by field

  lemma FilledIsLong(v: Value, drawn: Value)
    requires Encodes(drawn, 32)
    ensures Long(TrimSpace(if Blank(v) then drawn else v)) <==> KeptIsLong(v)
  {
    HexIsNotBlank(drawn, 32);
  }

  lemma JwtIsLong(sheet: Sheet<Value>, values: Values)
    requires sheet.empty == [] && sheet.blank == Blank && sheet.long == Long && Encodes(sheet.jwt, 32)
    ensures Long(TrimSpace(Jwt(sheet, values))) || Long(TrimSpace(Of(values, LegacyJwtSecret))) <==> JwtPasses(values)
  {
    HexIsNotBlank(sheet.jwt, 32);
  }

  lemma FilledEncodes(v: Value, drawn: Value, bytes: nat)
    requires EncodesUnlessBlank(v, bytes) && Encodes(drawn, bytes) && bytes > 0
    ensures Encodes(TrimSpace(if Blank(v) then drawn else v), bytes)
  {
    HexIsNotBlank(drawn, bytes);
  }

  lemma {:induction false} TextOfUnits(s: string)
    ensures TextOf(Units(s)) == Some(s)
  {
    if s != [] {
      TextOfUnits(s[1..]);
      assert Units(s)[1..] == Units(s[1..]);
      assert s == [s[0]] + s[1..];
    }
  }

  predicate Plain(s: string) {
    forall i :: 0 <= i < |s| ==> s[i] as int < 0x80 && !('A' <= s[i] <= 'Z') && !IsSpace(s[i])
  }

  /** Plain text is what trimming and lower-casing leave of it. */
  lemma {:induction false} LowerOfPlain(lower: char -> char, s: string)
    requires LowersAscii(lower) && Plain(s)
    ensures Lower(lower, Units(s)) == Units(s)
  {
    if s != [] {
      LowerOfPlain(lower, s[1..]);
      assert Units(s)[1..] == Units(s[1..]);
    }
  }

  lemma NormalOfPlain(world: World, s: string, fallback: Value)
    requires LowersAscii(world.lower) && Plain(s) && s != []
    ensures Normal(world, Units(s), fallback) == Units(s) == Lower(world.lower, TrimSpace(Units(s)))
  {
    UnitsAt(s);
    TrimIsSame(s);
    LowerOfPlain(world.lower, s);
    assert !IsBlank(Units(s)[0]);
  }

  lemma PortIsPlain(port: string)
    requires ValidPort(port)
    ensures Plain(port) && port != []
  {
    if port[0] == '+' || port[0] == '-' {
      assert forall i :: 1 <= i < |port| ==> port[i] == port[1..][i - 1];
    }
  }

  lemma FilledPortPasses(world: World, v: Value, port: string, fallback: Value)
    requires LowersAscii(world.lower) && ValidPort(port)
    ensures PortOk(Normal(world, if Blank(v) then Units(port) else v, fallback)) <==> KeptPortPasses(world, v)
  {
    PortIsPlain(port);
    NormalOfPlain(world, port, fallback);
    TextOfUnits(port);
  }

  lemma NamePasses(world: World, name: string)
    requires LowersAscii(world.lower) && ValidServerName(name)
    ensures NameOk(world, Units(name))
  {
    NameIsPlain(name);
    NameIsCompatible(world, name);
    TextOfUnits(name);
  }

  // ----- Together

  /** What the checks need of the settings that are spelled out. */
  predicate TextsPass(texts: Texts, world: World) {
    && !Flag(texts, world, texts.no) && Normal(world, texts.sqlite, texts.sqlite) == texts.sqlite
    && Normal(world, texts.loopback, texts.loopback) == texts.loopback
    && world.unicast(texts.loopback) && !world.unspecified(texts.loopback)
  }

  lemma FilledAt(sheet: Sheet<Value>, values: Values, key: Key)
    requires sheet.empty == [] && sheet.blank == Blank && IsDefaulted(key)
    ensures Of(After(sheet, values), key) == if Blank(Of(values, key)) then Default(sheet, key) else Of(values, key)
  {
    MadeAt(sheet, values, key);
  }

  lemma JwtAt(sheet: Sheet<Value>, values: Values)
    requires sheet.empty == []
    ensures Of(After(sheet, values), JwtSecret) == Jwt(sheet, values)
    ensures Of(After(sheet, values), LegacyJwtSecret) == Of(values, LegacyJwtSecret)
  {
    MadeAt(sheet, values, JwtSecret);
    MadeAt(sheet, values, LegacyJwtSecret);
  }

  lemma SeenSecrets(texts: Texts, options: Options, asked: Value, values: Values, random: Random)
    requires SecretsAreValid(values) && Generated(random)
    ensures SecretsPass(SeenIn(After(SheetFor(texts, options, asked, random), values))) <==>
            KeptIsLong(Of(values, MetricsToken)) && KeptIsLong(Of(values, ShieldSecret)) && JwtPasses(values)
  {
    var sheet := SheetFor(texts, options, asked, random);
    FilledAt(sheet, values, MetricsToken);
    FilledAt(sheet, values, ShieldSecret);
    FilledAt(sheet, values, PrivateKey);
    FilledAt(sheet, values, EpochSecret);
    JwtAt(sheet, values);
    JwtIsLong(sheet, values);
    FilledIsLong(Of(values, MetricsToken), random.metrics);
    FilledIsLong(Of(values, ShieldSecret), random.shield);
    FilledEncodes(Of(values, PrivateKey), random.privateKey, KEY_BYTES);
    FilledEncodes(Of(values, EpochSecret), random.epoch, HASH_BYTES);
  }

  lemma SetAt(sheet: Sheet<Value>, values: Values, key: Key)
    requires sheet.empty == [] && IsFixed(key)
    ensures Of(After(sheet, values), key) == Fixed(sheet, key)
  {
    MadeAt(sheet, values, key);
  }

  lemma SeenRest(texts: Texts, world: World, options: Options, asked: Value, values: Values, random: Random)
    ensures var seen := SeenIn(After(SheetFor(texts, options, asked, random), values));
            && seen.devMode == texts.no && seen.driver == texts.sqlite && seen.name == Units(options.serverName)
            && seen.address == texts.loopback && seen.publicBind == texts.no
            && seen.port == if Blank(Of(values, ServerPort)) then Units(Port(options)) else Of(values, ServerPort)
  {
    var sheet := SheetFor(texts, options, asked, random);
    SetAt(sheet, values, DevMode);
    SetAt(sheet, values, DbDriver);
    SetAt(sheet, values, ServerName);
    SetAt(sheet, values, BindAddress);
    SetAt(sheet, values, AllowPublicBind);
    FilledAt(sheet, values, ServerPort);
  }

  lemma MadePassesWith(texts: Texts, world: World, options: Options, asked: Value, values: Values, random: Random)
    requires LowersAscii(world.lower) && TextsPass(texts, world) && Generated(random)
             && Admissible(texts, world, options, values)
    ensures Production(texts, world, SeenIn(After(SheetFor(texts, options, asked, random), values))) <==>
              Passes(world, values)
  {
    SeenSecrets(texts, options, asked, values, random);
    SeenRest(texts, world, options, asked, values, random);
    NamePasses(world, options.serverName);
    FilledPortPasses(world, Of(values, ServerPort), Port(options), texts.port);
  }

  lemma OtherLengthIsNoFlag(texts: Texts, world: World, s: string)
    requires LowersAscii(world.lower) && Plain(s) && s != [] && forall t :: t in texts.truths ==> |t| != |s|
    ensures !Flag(texts, world, Units(s))
  {
    NormalOfPlain(world, s, []);
    UnitsAt(s);
  }

  lemma TruthsAreShorter()
    ensures forall t :: t in TEXTS.truths ==> |t| < 5
  {
    UnitsAt("1");
    UnitsAt("true");
    UnitsAt("yes");
  }

  lemma PlainPasses(world: World, v: Value, s: string)
    requires LowersAscii(world.lower) && Plain(s) && s != [] && v == Units(s)
    ensures Normal(world, v, v) == v
  {
    NormalOfPlain(world, s, v);
  }

  lemma SpelledTextsPass(texts: Texts, world: World, no: string, sqlite: string, loopback: string)
    requires LowersAscii(world.lower) && world.unicast(texts.loopback) && !world.unspecified(texts.loopback)
    requires Plain(no) && Plain(sqlite) && Plain(loopback) && no != [] && sqlite != [] && loopback != []
    requires texts.no == Units(no) && forall t :: t in texts.truths ==> |t| != |no|
    requires texts.sqlite == Units(sqlite) && texts.loopback == Units(loopback)
    ensures TextsPass(texts, world)
  {
    OtherLengthIsNoFlag(texts, world, no);
    PlainPasses(world, texts.sqlite, sqlite);
    PlainPasses(world, texts.loopback, loopback);
  }

  lemma PlainTexts()
    ensures Plain("false") && Plain("sqlite") && Plain("127.0.0.1")
  {
  }

  lemma TextsDoPass(world: World)
    requires Lawful(world)
    ensures TextsPass(TEXTS, world)
  {
    TruthsAreShorter();
    PlainTexts();
    SpelledTextsPass(TEXTS, world, "false", "sqlite", "127.0.0.1");
  }
}
