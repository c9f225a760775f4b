/**
 When a setup as a whole goes through: a condition on what it found and was asked for.
 */
module SetupSuccess {
  import opened Wrappers
  import opened Text
  import opened Quoting
  import opened Paths
  import opened SetupValues
  import opened Setup
  import opened SetupChecks

  // ----- What is kept, and what is put in

  /** Setup leaves the variable as it found it, the path aside. */
  predicate IsKept(values: Values, key: Key) {
    key in values && !IsFixed(key) && key != DbPath && (IsManaged(key) ==> !Blank(values[key]))
  }

  predicate KeptCanBeWritten(values: Values) {
    forall key :: key in values && IsKept(values, key) ==> Unbroken(values[key])
  }

  /** The path is not blank, and neither it nor what it comes to is broken. */
  predicate PathCanBeWritten(cwd: Value, path: Value)
    requires Rooted(cwd)
  {
    var trimmed := TrimSpace(path);
    trimmed != [] && Unbroken(trimmed) && Unbroken(CleanPath(Absolute(cwd, trimmed)))
  }

  predicate PathCanBeAsked(path: Value) { TrimSpace(path) != [] && Unbroken(TrimSpace(path)) }

  /** The path asked for is usable, the path setup starts from can be written, and so can what it keeps. */
  predicate CanBeWritten(world: World, options: Options, values: Values)
    requires Rooted(world.cwd)
  {
    && PathCanBeAsked(options.databasePath) && PathCanBeWritten(world.cwd, StartingPath(world, options, values))
    && KeptCanBeWritten(values)
  }

  predicate SheetIsUnbroken(sheet: Sheet<Value>) {
    && Unbroken(sheet.no) && Unbroken(sheet.yes) && Unbroken(sheet.loopback) && Unbroken(sheet.sqlite)
    && Unbroken(sheet.name) && Unbroken(sheet.port) && Unbroken(sheet.privateKey) && Unbroken(sheet.jwt)
    && Unbroken(sheet.metrics) && Unbroken(sheet.shield) && Unbroken(sheet.epoch)
  }

  predicate TextsAreUnbroken(texts: Texts) {
    Unbroken(texts.no) && Unbroken(texts.yes) && Unbroken(texts.loopback) && Unbroken(texts.sqlite)
  }

  // ----- What is put in can be written

  lemma HexIsUnbroken(v: Value)
    requires IsHex(v)
    ensures Unbroken(v)
  {
    assert DigitValue('\0').None? && DigitValue('\r').None? && DigitValue('\n').None?;
  }

  lemma UnitsAreUnbroken(s: string)
    requires forall i :: 0 <= i < |s| ==> s[i] != '\0' && s[i] != '\r' && s[i] != '\n'
    ensures Unbroken(Units(s))
  {
    UnitsAt(s);
  }

  lemma NameIsUnbroken(name: string)
    requires ValidServerName(name)
    ensures Unbroken(Units(name))
  {
    NameIsPlain(name);
    UnitsAreUnbroken(name);
  }

  lemma PortIsUnbroken(port: string)
    requires ValidPort(port)
    ensures Unbroken(Units(port))
  {
    assert forall i :: 0 <= i < |port| ==> IsDigit(port[i]) || (i == 0 && (port[i] == '+' || port[i] == '-')) by {
      if port[0] == '+' || port[0] == '-' {
        assert forall i :: 1 <= i < |port| ==> port[i] == port[1..][i - 1];
      }
    }
    UnitsAreUnbroken(port);
  }

  lemma SheetForIsUnbroken(texts: Texts, options: Options, asked: Value, random: Random)
    requires TextsAreUnbroken(texts) && Generated(random)
    requires ValidServerName(options.serverName) && ValidPort(Port(options))
    ensures SheetIsUnbroken(SheetFor(texts, options, asked, random))
  {
    NameIsUnbroken(options.serverName);
    PortIsUnbroken(Port(options));
    HexIsUnbroken(random.privateKey);
    HexIsUnbroken(random.jwt);
    HexIsUnbroken(random.metrics);
    HexIsUnbroken(random.shield);
    HexIsUnbroken(random.epoch);
  }

  lemma FlagsAreUnbroken()
    ensures Unbroken(Units("false")) && Unbroken(Units("true"))
  {
    UnitsAreUnbroken("false");
    UnitsAreUnbroken("true");
  }

  lemma LoopbackIsUnbroken()
    ensures Unbroken(Units("127.0.0.1"))
  {
    UnitsAreUnbroken("127.0.0.1");
  }

  lemma TextsDoWrite()
    ensures TextsAreUnbroken(TEXTS)
  {
    FlagsAreUnbroken();
    LoopbackIsUnbroken();
    UnitsAreUnbroken("sqlite");
  }

  // ----- Variable by variable

  lemma FixedIsUnbroken(sheet: Sheet<Value>, key: Key)
    requires SheetIsUnbroken(sheet) && IsFixed(key)
    ensures Unbroken(Fixed(sheet, key))
  {
  }

  lemma DefaultIsUnbroken(sheet: Sheet<Value>, key: Key)
    requires SheetIsUnbroken(sheet) && IsDefaulted(key) && key != DbPath
    ensures Unbroken(Default(sheet, key))
  {
  }

  lemma JwtIsUnbroken(sheet: Sheet<Value>, values: Values)
    requires SheetIsUnbroken(sheet) && sheet.blank == Blank && sheet.empty == [] && KeptCanBeWritten(values)
    ensures Unbroken(Jwt(sheet, values))
  {
    assert JwtSecret in values && !Blank(values[JwtSecret]) ==> IsKept(values, JwtSecret);
    assert LegacyJwtSecret in values ==> IsKept(values, LegacyJwtSecret);
  }

  /** What setup leaves in a variable was kept or put in. */
  lemma LeftIsUnbroken(sheet: Sheet<Value>, values: Values, key: Key)
    requires SheetIsUnbroken(sheet) && sheet.blank == Blank && sheet.empty == [] && KeptCanBeWritten(values)
    requires key != DbPath && (key in values || IsManaged(key))
    ensures Unbroken(Left(sheet, values, key))
  {
    if IsFixed(key) {
      FixedIsUnbroken(sheet, key);
    } else if key.JwtSecret? {
      JwtIsUnbroken(sheet, values);
    } else if IsDefaulted(key) && Blank(Of(values, key)) {
      DefaultIsUnbroken(sheet, key);
    } else {
      assert IsKept(values, key);
    }
  }

  lemma KeptIsLeft(sheet: Sheet<Value>, values: Values, key: Key)
    requires sheet.blank == Blank && sheet.empty == [] && IsKept(values, key)
    ensures Left(sheet, values, key) == values[key]
  {
  }

  /** The path aside, what was made can be written exactly if what was kept can. */
  lemma MadeCanBeWritten(sheet: Sheet<Value>, values: Values)
    requires SheetIsUnbroken(sheet) && sheet.blank == Blank && sheet.empty == []
    ensures KeptCanBeWritten(values) <==>
            forall key :: key in After(sheet, values) && key != DbPath ==> Unbroken(After(sheet, values)[key])
  {
    var made := After(sheet, values);
    AfterIsAssigned(sheet, values);
    if KeptCanBeWritten(values) {
      forall key | key in made && key != DbPath ensures Unbroken(made[key]) {
        assert AssignedAt(sheet, values, made, key);
        LeftIsUnbroken(sheet, values, key);
      }
    } else {
      var key :| IsKept(values, key) && !Unbroken(values[key]);
      assert AssignedAt(sheet, values, made, key);
      KeptIsLeft(sheet, values, key);
      assert key in made && made[key] == values[key];
    }
  }

  lemma FinishedIs(cwd: Value, made: Values)
    requires Rooted(cwd)
    ensures Finished(cwd, made).Some? <==>
            && PathCanBeWritten(cwd, Of(made, DbPath))
            && forall key :: key in made && key != DbPath ==> Unbroken(made[key])
  {
    var from := Absolute(cwd, TrimSpace(Of(made, DbPath)));
    CleanIsIdempotent(if Rooted(TrimSpace(Of(made, DbPath))) then TrimSpace(Of(made, DbPath))
                      else cwd + [SLASH] + TrimSpace(Of(made, DbPath)));
    var path := Normalized(cwd, Of(made, DbPath));
    if path.Some? {
      var done := made[DbPath := path.value];
      if Unbroken(path.value) && forall key :: key in made && key != DbPath ==> Unbroken(made[key]) {
        assert Writable(done);
      } else if Writable(done) {
        assert Unbroken(done[DbPath]);
        forall key | key in made && key != DbPath ensures Unbroken(made[key]) {
          assert done[key] == made[key];
        }
      }
    }
  }

  lemma FinishesExactly(texts: Texts, world: World, options: Options, values: Values, random: Random)
    requires Rooted(world.cwd) && TextsAreUnbroken(texts) && Generated(random)
    requires ValidServerName(options.serverName) && ValidPort(Port(options))
    requires PathCanBeAsked(options.databasePath)
    ensures var asked := Normalized(world.cwd, options.databasePath).value;
            Finished(world.cwd, After(SheetFor(texts, options, asked, random), values)).Some? <==>
            CanBeWritten(world, options, values)
  {
    var asked := Normalized(world.cwd, options.databasePath).value;
    var sheet := SheetFor(texts, options, asked, random);
    SheetForIsUnbroken(texts, options, asked, random);
    MadeCanBeWritten(sheet, values);
    MadeStartingPath(texts, world, options, asked, values, random);
    FinishedIs(world.cwd, After(sheet, values));
  }

  lemma SucceedsExactlyWith(texts: Texts, world: World, options: Options, values: Values, random: Random)
    requires Rooted(world.cwd) && LowersAscii(world.lower) && TextsPass(texts, world) && Generated(random)
    requires TextsAreUnbroken(texts)
    ensures SetUpWith(texts, world, options, values, random).Some? <==>
            && Admissible(texts, world, options, values) && Passes(world, values)
            && CanBeWritten(world, options, values)
  {
    if PathCanBeAsked(options.databasePath) && Admissible(texts, world, options, values) {
      var asked := Normalized(world.cwd, options.databasePath).value;
      MadePassesWith(texts, world, options, asked, values, random);
      FinishesExactly(texts, world, options, values, random);
    }
  }

  /** Setup goes through exactly when its own checks pass, the secrets and the port it keeps pass the
      production checks, and neither the paths nor anything it keeps is broken. */
  lemma SucceedsExactly(world: World, options: Options, values: Values, random: Random)
    requires Lawful(world) && Generated(random)
    ensures SetUp(world, options, values, random).Some? <==>
            && Admissible(TEXTS, world, options, values) && Passes(world, values)
            && CanBeWritten(world, options, values)
  {
    TextsDoPass(world);
    TextsDoWrite();
    SucceedsExactlyWith(TEXTS, world, options, values, random);
  }

  // ----- A secret setup takes and the production checks do not

  function Letters(n: nat): Value { if n == 0 then [] else [Rune('a')] + Letters(n - 1) }

  lemma {:induction false} LettersAre(n: nat)
    ensures |Letters(n)| == n && (forall i :: 0 <= i < n ==> Letters(n)[i] == Rune('a')) && Length(Letters(n)) == n
  {
    if n > 0 {
      LettersAre(n - 1);
    }
  }

  lemma {:induction false} LengthOfConcat(v: Value, w: Value)
    ensures Length(v + w) == Length(v) + Length(w)
  {
    if v == [] {
      assert v + w == w;
    } else {
      assert (v + w)[1..] == v[1..] + w;
      LengthOfConcat(v[1..], w);
    }
  }

  const PADDED_TOKEN: Value := Letters(31) + [Rune(' ')]

  lemma PaddedTokenIsShort()
    ensures Strong(PADDED_TOKEN) && !Blank(PADDED_TOKEN) && !KeptIsLong(PADDED_TOKEN)
  {
    var letters := Letters(31);
    LettersAre(31);
    LengthOfConcat(letters, [Rune(' ')]);
    assert Length([Rune(' ')]) == 1;
    assert PADDED_TOKEN[0] == Rune('a') && PADDED_TOKEN[|PADDED_TOKEN| - 1] == Rune(' ');
    assert PADDED_TOKEN[..31] == letters;
    assert TrimEnd(letters) == letters;
    assert TrimSpace(PADDED_TOKEN) == letters;
  }

  /** Setup's own checks look at the token alone. */
  lemma TokenIsAdmissible(texts: Texts, world: World, options: Options, token: Value)
    requires Admissible(texts, world, options, map[]) && Strong(token)
    ensures Admissible(texts, world, options, map[MetricsToken := token])
  {
    var values := map[MetricsToken := token];
    assert forall key :: key != MetricsToken ==> Of(values, key) == Of(map[], key);
  }

  lemma WeakTokenFails(world: World, options: Options, random: Random, token: Value)
    requires Lawful(world) && Generated(random) && SetUp(world, options, map[], random).Some?
    requires Strong(token) && !KeptIsLong(token)
    ensures Admissible(TEXTS, world, options, map[MetricsToken := token])
    ensures SetUp(world, options, map[MetricsToken := token], random) == None
  {
    TokenIsAdmissible(TEXTS, world, options, token);
    SucceedsExactly(world, options, map[MetricsToken := token], random);
  }

  /** Where a setup of nothing goes through, one that finds 31 letters and a space for a metrics token passes its
      own checks and fails the production checks. */
  lemma PaddedTokenFails(world: World, options: Options, random: Random)
    requires Lawful(world) && Generated(random) && SetUp(world, options, map[], random).Some?
    ensures Admissible(TEXTS, world, options, map[MetricsToken := PADDED_TOKEN])
    ensures SetUp(world, options, map[MetricsToken := PADDED_TOKEN], random) == None
  {
    PaddedTokenIsShort();
    WeakTokenFails(world, options, random, PADDED_TOKEN);
  }
}
