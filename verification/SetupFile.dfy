/**
 Provisioning on the file itself: read, set up, write, and read again.
 */
module SetupFile {
  import opened Wrappers
  import opened Text
  import opened Quoting
  import opened Paths
  import opened SetupValues
  import opened Setup
  import opened EnvironmentNames
  import E = EnvironmentFile

  /** How the writer prints: which characters count as printable, and the order of the keys. */
  datatype Printer = Printer(isPrint: char -> bool, order: set<string> -> seq<string>)

  /** The order lists every key once; sorting is such an order. */
  ghost predicate Orders(printer: Printer) {
    forall names: set<string> ::
      && (forall name :: name in printer.order(names) <==> name in names)
      && (forall i, j :: 0 <= i < j < |printer.order(names)| ==> printer.order(names)[i] != printer.order(names)[j])
  }

  lemma OrderEnumerates(printer: Printer, env: map<string, Value>)
    requires Orders(printer)
    ensures E.Enumerates(printer.order(env.Keys), env)
    ensures forall i :: 0 <= i < |printer.order(env.Keys)| ==> printer.order(env.Keys)[i] in env
  {
    var keys := printer.order(env.Keys);
    forall i | 0 <= i < |keys| ensures keys[i] in env {
      assert keys[i] in keys;
    }
  }

  ghost function Print(printer: Printer, env: map<string, Value>): string
    requires Orders(printer)
  {
    OrderEnumerates(printer, env);
    E.Written(printer.isPrint, printer.order(env.Keys), env)
  }

  /** What is in a file, or nothing if there is none yet. */
  function Found(file: Option<string>): Option<map<string, Value>> {
    if file.None? then Some(map[]) else E.Read(file.value)
  }

  /** One setup of a file: what it leaves there, or `None` if it fails and leaves the file alone. */
  ghost function SetUpFile(printer: Printer, world: World, options: Options, file: Option<string>,
                           random: Random): Option<string>
    requires Rooted(world.cwd) && Orders(printer)
  {
    var found := Found(file);
    if found.None? then None
    else
      var done := SetUp(world, options, Keyed(found.value), random);
      if done.None? then None
      else if !AllSpellable(done.value) || !E.Writable(Spelled(done.value)) then None
      else Some(Print(printer, Spelled(done.value)))
  }

  // ----- What is set up can be written

  predicate AllKeys(env: map<string, Value>) { forall name :: name in env ==> E.IsKey(name) }

  lemma {:induction false} ReadLinesAreKeys(values: map<string, Value>, lines: seq<string>)
    requires AllKeys(values) && E.ReadLines(values, lines).Some?
    ensures AllKeys(E.ReadLines(values, lines).value)
    decreases |lines|
  {
    if lines != [] {
      ReadLinesAreKeys(E.ReadLine(values, lines[0]).value, lines[1..]);
    }
  }

  lemma FoundAreKeys(file: Option<string>)
    requires Found(file).Some?
    ensures AllKeys(Found(file).value)
  {
    if file.Some? {
      ReadLinesAreKeys(map[], E.Lines(file.value));
    }
  }

  lemma KnownIsSpellable(key: Key)
    requires IsManaged(key)
    ensures Spellable(key) && E.IsKey(Spelling(key))
  {
    NamedOfSpelling(key);
  }

  lemma DoneKeys(world: World, options: Options, values: Values, random: Random, key: Key)
    requires Rooted(world.cwd) && SetUp(world, options, values, random).Some?
    requires key in SetUp(world, options, values, random).value
    ensures key in values || IsManaged(key)
  {
    DoneKeysWith(TEXTS, world, options, values, random, key);
  }

  lemma DoneKeysWith(texts: Texts, world: World, options: Options, values: Values, random: Random, key: Key)
    requires Rooted(world.cwd) && SetUpWith(texts, world, options, values, random).Some?
    requires key in SetUpWith(texts, world, options, values, random).value
    ensures key in values || IsManaged(key)
  {
    var sheet := SheetFor(texts, options, Normalized(world.cwd, options.databasePath).value, random);
    AfterIsAssigned(sheet, values);
    assert AssignedAt(sheet, values, After(sheet, values), key);
  }

  lemma DoneIsSpellable(world: World, options: Options, env: map<string, Value>, random: Random)
    requires Rooted(world.cwd) && SetUp(world, options, Keyed(env), random).Some?
    ensures AllSpellable(SetUp(world, options, Keyed(env), random).value)
  {
    var done := SetUp(world, options, Keyed(env), random).value;
    KeyedIsSpellable(env);
    forall key | key in done ensures Spellable(key) {
      DoneKeys(world, options, Keyed(env), random, key);
      if IsManaged(key) {
        KnownIsSpellable(key);
      }
    }
  }

  lemma DoneIsPlain(world: World, options: Options, values: Values, random: Random, key: Key)
    requires Rooted(world.cwd) && SetUp(world, options, values, random).Some?
    requires key in SetUp(world, options, values, random).value
    ensures Unbroken(SetUp(world, options, values, random).value[key])
  {
  }

  /** Whatever setup makes of a file can be written. */
  lemma DoneIsWritable(world: World, options: Options, env: map<string, Value>, random: Random)
    requires Rooted(world.cwd) && SetUp(world, options, Keyed(env), random).Some? && AllKeys(env)
    requires AllSpellable(SetUp(world, options, Keyed(env), random).value)
    ensures E.Writable(Spelled(SetUp(world, options, Keyed(env), random).value))
  {
    var done := SetUp(world, options, Keyed(env), random).value;
    forall name | name in Spelled(done) ensures E.IsKey(name) && Unbroken(Spelled(done)[name]) {
      var key := Named(name);
      SpellingOfNamed(name);
      NamedIsSpellable(name);
      SpelledAt(done, key);
      DoneKeys(world, options, Keyed(env), random, key);
      DoneIsPlain(world, options, Keyed(env), random, key);
      if IsManaged(key) {
        KnownIsSpellable(key);
      } else {
        KeyedAt(env, name);
      }
    }
  }

  /** So a setup of a file fails only for what the file or the map fails for. */
  lemma SetUpFileIs(printer: Printer, world: World, options: Options, file: Option<string>, random: Random)
    requires Rooted(world.cwd) && Orders(printer)
    ensures var found := Found(file);
            if found.None? then SetUpFile(printer, world, options, file, random) == None
            else
              var done := SetUp(world, options, Keyed(found.value), random);
              && (done.Some? ==> AllSpellable(done.value) && E.Writable(Spelled(done.value)))
              && SetUpFile(printer, world, options, file, random)
                 == if done.None? then None else Some(Print(printer, Spelled(done.value)))
  {
    var found := Found(file);
    if found.Some? && SetUp(world, options, Keyed(found.value), random).Some? {
      FoundAreKeys(file);
      DoneIsSpellable(world, options, found.value, random);
      DoneIsWritable(world, options, found.value, random);
    }
  }

  // ----- And again

  lemma PrintIsRead(printer: Printer, env: map<string, Value>)
    requires Orders(printer) && E.Writable(env)
    ensures E.Read(Print(printer, env)) == if E.WithinLimits(Print(printer, env)) then Some(env) else None
  {
    OrderEnumerates(printer, env);
    E.EnvironmentRoundTrip(printer.isPrint, printer.order(env.Keys), env);
  }

  /** Two maps that print alike within the limits are one. */
  lemma SamePrint(printer: Printer, a: map<Key, Value>, b: map<Key, Value>)
    requires Orders(printer) && AllSpellable(a) && AllSpellable(b) && E.Writable(Spelled(a)) && E.Writable(Spelled(b))
    requires E.WithinLimits(Print(printer, Spelled(a)))
    ensures Print(printer, Spelled(a)) == Print(printer, Spelled(b)) <==> a == b
  {
    PrintIsRead(printer, Spelled(a));
    PrintIsRead(printer, Spelled(b));
    KeyedOfSpelled(a);
    KeyedOfSpelled(b);
  }

  /**
   A second setup of the file the first one left, with the same options, succeeds whatever it draws exactly when
   the text the first one wrote is within the limits the reader has. It then leaves the same text exactly when
   the last part kept of the path the first one started from does not end in white space.
   */
  lemma SetupFileTwice(printer: Printer, world: World, options: Options, file: Option<string>, random: Random,
                       again: Random)
    requires Orders(printer) && Lawful(world) && Generated(random)
    requires SetUpFile(printer, world, options, file, random).Some?
    ensures var text := SetUpFile(printer, world, options, file, random).value;
            var second := SetUpFile(printer, world, options, Some(text), again);
            && (second.Some? <==> E.WithinLimits(text))
            && (E.WithinLimits(text) ==>
                  (second == Some(text) <==> !KeptEndsBlank(world.cwd,
                                                            StartingPath(world, options, Keyed(Found(file).value)))))
  {
    SetUpFileIs(printer, world, options, file, random);
    var found := Keyed(Found(file).value);
    var done := SetUp(world, options, found, random).value;
    var text := Print(printer, Spelled(done));
    PrintIsRead(printer, Spelled(done));
    SetUpFileIs(printer, world, options, Some(text), again);
    if E.WithinLimits(text) {
      KeyedOfSpelled(done);
      SetupTwice(world, options, found, random, again);
      SamePrint(printer, done, SetUp(world, options, done, again).value);
    }
  }
}
