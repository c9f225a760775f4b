/**
 What a setup leaves behind, variable by variable, in the words of the file.
 */
module SetupResult {
  import opened Wrappers
  import opened Text
  import opened Quoting
  import opened Paths
  import opened SetupValues
  import opened Setup
  import opened EnvironmentNames
  import opened SetupFile
  import opened SetupLimits
  import E = EnvironmentFile

  predicate Holds(done: Values, key: Key, v: Value) { key in done && done[key] == v }

  /** What was there, or this if it was blank. */
  function Or(values: Values, key: Key, otherwise: Value): Value {
    if Blank(Of(values, key)) then otherwise else Of(values, key)
  }

  /** The switches: a production node on the loopback address with a local database and secure cookies. */
  predicate SwitchesAre(texts: Texts, options: Options, values: Values, done: Values) {
    && Holds(done, DevMode, texts.no) && Holds(done, CookieSecure, texts.yes)
    && Holds(done, BindAddress, texts.loopback) && Holds(done, AllowPublicBind, texts.no)
    && Holds(done, DbDriver, texts.sqlite) && Holds(done, ServerName, Units(options.serverName))
    && Holds(done, OpenRegistration, Or(values, OpenRegistration, texts.no))
    && Holds(done, ServerPort, Or(values, ServerPort, Units(if options.port == "" then "8080" else options.port)))
  }

  /** The secrets: what was there, a long legacy secret for a missing token secret, or what was drawn. */
  predicate SecretsAre(values: Values, random: Random, done: Values) {
    var legacy := Of(values, LegacyJwtSecret);
    && Holds(done, PrivateKey, Or(values, PrivateKey, random.privateKey))
    && Holds(done, MetricsToken, Or(values, MetricsToken, random.metrics))
    && Holds(done, ShieldSecret, Or(values, ShieldSecret, random.shield))
    && Holds(done, EpochSecret, Or(values, EpochSecret, random.epoch))
    && Holds(done, JwtSecret,
             Or(values, JwtSecret, if Length(legacy) >= 32 && !Blank(legacy) then legacy else random.jwt))
  }

  /** The rest: the legacy secret and every variable setup does not know, as they were. */
  ghost predicate OthersAre(values: Values, done: Values) {
    forall key: Key :: key.LegacyJwtSecret? || key.Other? ==>
      (key in done <==> key in values) && (key in values ==> done[key] == values[key])
  }

  lemma MadeHolds(sheet: Sheet<Value>, values: Values, path: Value, key: Key)
    requires sheet.empty == [] && key != DbPath && IsManaged(key)
    ensures Holds(After(sheet, values)[DbPath := path], key, Left(sheet, values, key))
  {
    AfterIsAssigned(sheet, values);
    assert AssignedAt(sheet, values, After(sheet, values), key);
  }

  lemma FixedHold(sheet: Sheet<Value>, values: Values, path: Value)
    requires sheet.empty == []
    ensures var done := After(sheet, values)[DbPath := path];
            && Holds(done, DevMode, sheet.no) && Holds(done, CookieSecure, sheet.yes)
            && Holds(done, BindAddress, sheet.loopback) && Holds(done, AllowPublicBind, sheet.no)
            && Holds(done, DbDriver, sheet.sqlite) && Holds(done, ServerName, sheet.name)
  {
    MadeHolds(sheet, values, path, DevMode);
    MadeHolds(sheet, values, path, CookieSecure);
    MadeHolds(sheet, values, path, BindAddress);
    MadeHolds(sheet, values, path, AllowPublicBind);
    MadeHolds(sheet, values, path, DbDriver);
    MadeHolds(sheet, values, path, ServerName);
  }

  lemma DefaultHolds(sheet: Sheet<Value>, values: Values, path: Value, key: Key)
    requires sheet.empty == [] && sheet.blank == Blank && IsDefaulted(key) && key != DbPath
    ensures Holds(After(sheet, values)[DbPath := path], key, Or(values, key, Default(sheet, key)))
  {
    MadeHolds(sheet, values, path, key);
  }

  lemma DefaultsHold(sheet: Sheet<Value>, values: Values, path: Value)
    requires sheet.empty == [] && sheet.blank == Blank
    ensures var done := After(sheet, values)[DbPath := path];
            && Holds(done, OpenRegistration, Or(values, OpenRegistration, sheet.no))
            && Holds(done, ServerPort, Or(values, ServerPort, sheet.port))
            && Holds(done, PrivateKey, Or(values, PrivateKey, sheet.privateKey))
            && Holds(done, MetricsToken, Or(values, MetricsToken, sheet.metrics))
            && Holds(done, ShieldSecret, Or(values, ShieldSecret, sheet.shield))
            && Holds(done, EpochSecret, Or(values, EpochSecret, sheet.epoch))
  {
    DefaultHolds(sheet, values, path, OpenRegistration);
    DefaultHolds(sheet, values, path, ServerPort);
    DefaultHolds(sheet, values, path, PrivateKey);
    DefaultHolds(sheet, values, path, MetricsToken);
    DefaultHolds(sheet, values, path, ShieldSecret);
    DefaultHolds(sheet, values, path, EpochSecret);
  }

  lemma JwtHolds(sheet: Sheet<Value>, values: Values, path: Value)
    requires sheet.empty == [] && sheet.blank == Blank && sheet.long == Long
    ensures var legacy := Of(values, LegacyJwtSecret);
            Holds(After(sheet, values)[DbPath := path], JwtSecret,
                  Or(values, JwtSecret, if Length(legacy) >= 32 && !Blank(legacy) then legacy else sheet.jwt))
  {
    MadeHolds(sheet, values, path, JwtSecret);
  }

  lemma MadeSwitches(texts: Texts, options: Options, asked: Value, values: Values, random: Random, path: Value)
    ensures var done := After(SheetFor(texts, options, asked, random), values)[DbPath := path];
            SwitchesAre(texts, options, values, done) && SecretsAre(values, random, done)
  {
    var sheet := SheetFor(texts, options, asked, random);
    FixedHold(sheet, values, path);
    DefaultsHold(sheet, values, path);
    JwtHolds(sheet, values, path);
  }

  lemma MadeOthers(texts: Texts, options: Options, asked: Value, values: Values, random: Random, path: Value)
    ensures OthersAre(values, After(SheetFor(texts, options, asked, random), values)[DbPath := path])
  {
    var sheet := SheetFor(texts, options, asked, random);
    AfterIsAssigned(sheet, values);
    forall key: Key | key.LegacyJwtSecret? || key.Other?
      ensures (key in After(sheet, values) <==> key in values)
      ensures key in values ==> After(sheet, values)[key] == values[key]
    {
      assert AssignedAt(sheet, values, After(sheet, values), key);
    }
  }

  lemma LeavesWith(texts: Texts, world: World, options: Options, values: Values, random: Random)
    requires Rooted(world.cwd) && SetUpWith(texts, world, options, values, random).Some?
    ensures var done := SetUpWith(texts, world, options, values, random).value;
            && SwitchesAre(texts, options, values, done) && SecretsAre(values, random, done) && OthersAre(values, done)
            && DbPath in done && Normalized(world.cwd, StartingPath(world, options, values)) == Some(done[DbPath])
  {
    var asked := Normalized(world.cwd, options.databasePath).value;
    var made := After(SheetFor(texts, options, asked, random), values);
    var path := Normalized(world.cwd, Of(made, DbPath)).value;
    MadeStartingPath(texts, world, options, asked, values, random);
    MadeSwitches(texts, options, asked, values, random, path);
    MadeOthers(texts, options, asked, values, random, path);
  }

  /**
   Every successful setup, variable by variable: development off, cookies secure, the loopback address, no public
   bind, SQLite and the server's name; registration off and the port asked for where nothing was set; no secret
   changed that was there; the path normalised; everything else as it was.
   */
  lemma SetupLeaves(world: World, options: Options, values: Values, random: Random)
    requires Rooted(world.cwd) && SetUp(world, options, values, random).Some?
    ensures var done := SetUp(world, options, values, random).value;
            && Holds(done, DevMode, Units("false")) && Holds(done, CookieSecure, Units("true"))
            && Holds(done, BindAddress, Units("127.0.0.1")) && Holds(done, AllowPublicBind, Units("false"))
            && Holds(done, DbDriver, Units("sqlite")) && Holds(done, ServerName, Units(options.serverName))
            && Holds(done, OpenRegistration, Or(values, OpenRegistration, Units("false")))
            && Holds(done, ServerPort,
                     Or(values, ServerPort, Units(if options.port == "" then "8080" else options.port)))
            && SecretsAre(values, random, done) && OthersAre(values, done)
            && DbPath in done && Normalized(world.cwd, StartingPath(world, options, values)) == Some(done[DbPath])
  {
    LeavesWith(TEXTS, world, options, values, random);
  }

  // ----- The lines of the file

  /** Letters, digits and points are printed as they are. */
  ghost predicate PrintsWords(printer: Printer) {
    forall c: char :: 'a' <= c <= 'z' || '0' <= c <= '9' || c == '.' ==> printer.isPrint(c)
  }

  predicate IsWordText(s: string) {
    forall i :: 0 <= i < |s| ==> 'a' <= s[i] <= 'z' || '0' <= s[i] <= '9' || s[i] == '.'
  }

  lemma {:induction false} WordIsPrinted(printer: Printer, s: string)
    requires PrintsWords(printer) && IsWordText(s)
    ensures EscapedAll(printer.isPrint, Units(s)) == s
  {
    if s != [] {
      WordIsPrinted(printer, s[1..]);
      assert Units(s)[1..] == Units(s[1..]);
    }
  }

  /** A setting as it stands in the file. */
  function Line(name: string, text: string): string { name + ['=', '"'] + text + ['"'] }

  lemma LineOf(printer: Printer, name: string, s: string)
    requires PrintsWords(printer) && IsWordText(s)
    ensures E.LineFor(printer.isPrint, name, Units(s)) == Line(name, s)
  {
    WordIsPrinted(printer, s);
    assert name + ['='] + (['"'] + s + ['"']) == name + ['=', '"'] + s + ['"'];
  }

  /** The file has this line. */
  predicate HasLine(file: string, name: string, text: string) { Line(name, text) in E.Lines(file) }

  lemma LineIsWritten(printer: Printer, done: Values, key: Key, name: string, s: string)
    requires Orders(printer) && PrintsWords(printer) && AllSpellable(done) && E.Writable(Spelled(done))
    requires IsWordText(s) && Spelling(key) == name && IsManaged(key) && Holds(done, key, Units(s))
    ensures HasLine(Print(printer, Spelled(done)), name, s)
  {
    KnownIsSpellable(key);
    SpelledAt(done, key);
    PrintHasLine(printer, Spelled(done), name);
    LineOf(printer, name, s);
  }

  lemma FirstSpellings()
    ensures Spelling(DevMode) == "GAIACOM_DEV_MODE" && Spelling(CookieSecure) == "GAIACOM_COOKIE_SECURE"
  {
    assert ["GAIACOM", "DEV", "MODE"][1..] == ["DEV", "MODE"] && ["DEV", "MODE"][1..] == ["MODE"];
    assert ["GAIACOM", "COOKIE", "SECURE"][1..] == ["COOKIE", "SECURE"] && ["COOKIE", "SECURE"][1..] == ["SECURE"];
  }

  lemma BindSpellings()
    ensures Spelling(BindAddress) == "SERVER_BIND_ADDRESS" && Spelling(DbDriver) == "DB_DRIVER"
  {
    assert ["SERVER", "BIND", "ADDRESS"][1..] == ["BIND", "ADDRESS"] && ["BIND", "ADDRESS"][1..] == ["ADDRESS"];
    assert ["DB", "DRIVER"][1..] == ["DRIVER"];
  }

  lemma PublicSpelling()
    ensures Spelling(AllowPublicBind) == "GAIACOM_ALLOW_PUBLIC_BIND"
  {
    assert ["GAIACOM", "ALLOW", "PUBLIC", "BIND"][1..] == ["ALLOW", "PUBLIC", "BIND"];
    assert ["ALLOW", "PUBLIC", "BIND"][1..] == ["PUBLIC", "BIND"] && ["PUBLIC", "BIND"][1..] == ["BIND"];
  }

  lemma TheTexts()
    ensures IsWordText("false") && IsWordText("true") && IsWordText("127.0.0.1") && IsWordText("sqlite")
  {
  }

  lemma WrittenSwitches(printer: Printer, done: Values, no: string, yes: string)
    requires Orders(printer) && PrintsWords(printer) && AllSpellable(done) && E.Writable(Spelled(done))
    requires IsWordText(no) && IsWordText(yes) && Holds(done, AllowPublicBind, Units(no))
    requires Holds(done, DevMode, Units(no)) && Holds(done, CookieSecure, Units(yes))
    ensures var text := Print(printer, Spelled(done));
            && HasLine(text, "GAIACOM_DEV_MODE", no) && HasLine(text, "GAIACOM_COOKIE_SECURE", yes)
            && HasLine(text, "GAIACOM_ALLOW_PUBLIC_BIND", no)
  {
    FirstSpellings();
    PublicSpelling();
    LineIsWritten(printer, done, DevMode, "GAIACOM_DEV_MODE", no);
    LineIsWritten(printer, done, CookieSecure, "GAIACOM_COOKIE_SECURE", yes);
    LineIsWritten(printer, done, AllowPublicBind, "GAIACOM_ALLOW_PUBLIC_BIND", no);
  }

  lemma WrittenBinding(printer: Printer, done: Values, loopback: string, sqlite: string)
    requires Orders(printer) && PrintsWords(printer) && AllSpellable(done) && E.Writable(Spelled(done))
    requires IsWordText(loopback) && IsWordText(sqlite)
    requires Holds(done, BindAddress, Units(loopback)) && Holds(done, DbDriver, Units(sqlite))
    ensures var text := Print(printer, Spelled(done));
            HasLine(text, "SERVER_BIND_ADDRESS", loopback) && HasLine(text, "DB_DRIVER", sqlite)
  {
    BindSpellings();
    LineIsWritten(printer, done, BindAddress, "SERVER_BIND_ADDRESS", loopback);
    LineIsWritten(printer, done, DbDriver, "DB_DRIVER", sqlite);
  }

  /** Every file a setup writes has these five lines, letter by letter. */
  lemma SetupWrites(printer: Printer, world: World, options: Options, file: Option<string>, random: Random)
    requires Orders(printer) && PrintsWords(printer) && Rooted(world.cwd)
    requires SetUpFile(printer, world, options, file, random).Some?
    ensures var text := SetUpFile(printer, world, options, file, random).value;
            && HasLine(text, "GAIACOM_DEV_MODE", "false") && HasLine(text, "GAIACOM_COOKIE_SECURE", "true")
            && HasLine(text, "GAIACOM_ALLOW_PUBLIC_BIND", "false")
            && HasLine(text, "SERVER_BIND_ADDRESS", "127.0.0.1") && HasLine(text, "DB_DRIVER", "sqlite")
  {
    SetUpFileIs(printer, world, options, file, random);
    var found := Keyed(Found(file).value);
    SetupLeaves(world, options, found, random);
    var done := SetUp(world, options, found, random).value;
    TheTexts();
    WrittenSwitches(printer, done, "false", "true");
    WrittenBinding(printer, done, "127.0.0.1", "sqlite");
  }

  // ----- What setup refuses

  /** The port is any number from 1 to 65535, with or without a sign or leading zeros. */
  lemma PortsAreNumbers(n: int)
    requires MIN_INT64 <= n <= MAX_INT64
    ensures ValidPort(DecimalInt(n)) <==> 1 <= n <= 65535
  {
    ParseOfDecimalInt(n);
  }

  predicate Hexadecimal(v: Value, digits: nat) { |v| == digits && IsHex(v) }

  /** The secret is not there, or has at least 32 bytes. */
  predicate AbsentOrLong(v: Value) { v == [] || Length(v) >= 32 }

  predicate BlankOrHexadecimal(v: Value, digits: nat) { Blank(v) || Hexadecimal(TrimSpace(v), digits) }

  /**
   Setup goes through only on a file of no other server and of no other database than SQLite, with the secrets that
   are there long enough, a private key of 128 and an epoch secret of 64 hexadecimal digits, and for a valid port.
   */
  lemma SetupRefuses(world: World, options: Options, values: Values, random: Random)
    requires Rooted(world.cwd) && SetUp(world, options, values, random).Some?
    ensures var name := Lower(world.lower, TrimSpace(Of(values, ServerName)));
            name == [] || name == Units(options.serverName)
    ensures var driver := Lower(world.lower, TrimSpace(Of(values, DbDriver)));
            driver == [] || driver == Units("sqlite")
    ensures AbsentOrLong(Of(values, JwtSecret)) && AbsentOrLong(Of(values, MetricsToken))
    ensures AbsentOrLong(Of(values, ShieldSecret))
    ensures BlankOrHexadecimal(Of(values, PrivateKey), 128) && BlankOrHexadecimal(Of(values, EpochSecret), 64)
    ensures options.port == "" || ValidPort(options.port)
  {
  }
}
