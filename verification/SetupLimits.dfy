/**
 A file setup reads and cannot read back: quoting a value makes it longer.
 */
module SetupLimits {
  import opened Wrappers
  import opened Text
  import opened Quoting
  import opened Paths
  import opened SetupValues
  import opened Setup
  import opened EnvironmentNames
  import opened SetupFile
  import E = EnvironmentFile

  // ----- Sizes

  lemma {:induction false} SizeIsLength(s: string)
    ensures E.Size(s) >= |s|
    ensures (forall i :: 0 <= i < |s| ==> s[i] as int < 0x80) ==> E.Size(s) == |s|
  {
    if s != [] {
      SizeIsLength(s[1..]);
    }
  }

  function Quotes(n: nat): string { if n == 0 then [] else ['"'] + Quotes(n - 1) }

  lemma {:induction false} QuotesAre(n: nat)
    ensures |Quotes(n)| == n && forall i :: 0 <= i < n ==> Quotes(n)[i] == '"'
  {
    if n > 0 {
      QuotesAre(n - 1);
    }
  }

  /** Each quotation mark takes two characters. */
  lemma {:induction false} QuotedTwice(isPrint: char -> bool, n: nat)
    ensures |EscapedAll(isPrint, Units(Quotes(n)))| == 2 * n
  {
    if n > 0 {
      QuotedTwice(isPrint, n - 1);
      assert Quotes(n)[1..] == Quotes(n - 1);
      assert Units(Quotes(n))[1..] == Units(Quotes(n - 1));
    }
  }

  lemma QuotesArePlain(n: nat)
    ensures Unbroken(Units(Quotes(n)))
  {
    QuotesAre(n);
    UnitsAt(Quotes(n));
  }

  // ----- The file

  /** One setting, of that many quotation marks between apostrophes. */
  function Setting(name: string, n: nat): string { name + ['='] + (['\''] + Quotes(n) + ['\'']) }

  lemma SettingIsPlain(name: string, n: nat)
    requires E.IsKey(name)
    ensures |Setting(name, n)| == |name| + n + 3 && Free(Setting(name, n), '\n')
    ensures E.Size(Setting(name, n)) == |Setting(name, n)|
  {
    QuotesAre(n);
    SizeIsLength(Setting(name, n));
  }

  lemma ApostrophesAreTaken(s: string)
    ensures E.ParsedValue(['\''] + s + ['\'']) == Some(Units(s)) && Trim(['\''] + s + ['\'']) == ['\''] + s + ['\'']
  {
    var raw := ['\''] + s + ['\''];
    assert raw[1..|raw| - 1] == s;
    TrimOfTrimmed(raw);
  }

  lemma AssignmentIsCut(name: string, raw: string)
    requires E.IsKey(name) && raw != [] && !IsSpace(raw[|raw| - 1]) && Trim(raw) == raw && E.ParsedValue(raw).Some?
    ensures E.MeaningOf(name + ['='] + raw) == E.Setting(name, E.ParsedValue(raw).value)
  {
    var line := name + ['='] + raw;
    E.KeyIsPlain(name);
    assert line[0] == name[0] && line[|line| - 1] == raw[|raw| - 1];
    TrimOfTrimmed(line);
    CutAt(name, '=', raw);
  }

  lemma SettingMeans(name: string, n: nat)
    requires E.IsKey(name)
    ensures E.MeaningOf(Setting(name, n)) == E.Setting(name, Units(Quotes(n)))
  {
    ApostrophesAreTaken(Quotes(n));
    AssignmentIsCut(name, ['\''] + Quotes(n) + ['\'']);
  }

  lemma SettingIsRead(name: string, n: nat)
    requires E.IsKey(name) && |name| + n + 3 < E.MAX_LINE
    ensures E.Read(Setting(name, n)) == Some(map[name := Units(Quotes(n))])
  {
    var line := Setting(name, n);
    SettingIsPlain(name, n);
    SettingMeans(name, n);
    SplitLast(line, '\n');
    assert E.Lines(line) == [line];
    E.ReadFirst(map[], line, []);
    assert [line] + [] == [line];
  }

  // ----- Long lines

  lemma {:induction false} BodyHasLine(isPrint: char -> bool, keys: seq<string>, values: map<string, Value>,
                                       key: string)
    requires E.Writable(values) && (forall i :: 0 <= i < |keys| ==> keys[i] in values) && key in keys
    ensures E.LineFor(isPrint, key, values[key]) in E.Lines(E.Body(isPrint, keys, values))
  {
    var first, rest := keys[0], keys[1..];
    E.MeaningOfLine(isPrint, first, values[first]);
    E.LinesFirst(E.LineFor(isPrint, first, values[first]), E.Body(isPrint, rest, values));
    if key != first {
      BodyHasLine(isPrint, rest, values, key);
    }
  }

  lemma PrintHasLine(printer: Printer, env: map<string, Value>, key: string)
    requires Orders(printer) && E.Writable(env) && key in env
    ensures E.LineFor(printer.isPrint, key, env[key]) in E.Lines(Print(printer, env))
  {
    OrderEnumerates(printer, env);
    E.CommentsAreComments();
    var keys := printer.order(env.Keys);
    var body := E.Body(printer.isPrint, keys, env);
    E.LinesFirst(E.FIRST_COMMENT, E.SECOND_COMMENT + ['\n'] + body);
    E.LinesFirst(E.SECOND_COMMENT, body);
    BodyHasLine(printer.isPrint, keys, env, key);
  }

  lemma LongLineIsOverLimit(printer: Printer, env: map<string, Value>, key: string)
    requires Orders(printer) && E.Writable(env) && key in env
    requires |E.LineFor(printer.isPrint, key, env[key])| >= E.MAX_LINE
    ensures !E.WithinLimits(Print(printer, env))
  {
    var line := E.LineFor(printer.isPrint, key, env[key]);
    PrintHasLine(printer, env, key);
    SizeIsLength(line);
  }

  // ----- Setup leaves other variables alone

  lemma OtherIsNotAssigned<V>(sheet: Sheet<V>, values: map<Key, V>, name: string, v: V)
    ensures After(sheet, values[Other(name) := v]) == After(sheet, values)[Other(name) := v]
  {
    var other := Other(name);
    assert !IsManaged(other);
    AfterIsAssigned(sheet, values);
    AfterIsAssigned(sheet, values[other := v]);
    var a, b := After(sheet, values[other := v]), After(sheet, values)[other := v];
    forall key ensures (key in a <==> key in b) && (key in a ==> a[key] == b[key]) {
      assert AssignedAt(sheet, values, After(sheet, values), key);
      assert AssignedAt(sheet, values[other := v], a, key);
    }
  }

  lemma OtherIsNotChecked(texts: Texts, world: World, options: Options, values: Values, name: string, v: Value)
    ensures Admissible(texts, world, options, values[Other(name) := v]) <==> Admissible(texts, world, options, values)
    ensures SeenIn(values[Other(name) := v]) == SeenIn(values)
  {
  }

  lemma OtherIsFinished(cwd: Value, made: Values, name: string, v: Value)
    requires Rooted(cwd) && Finished(cwd, made).Some? && Unbroken(v)
    ensures Finished(cwd, made[Other(name) := v]) == Some(Finished(cwd, made).value[Other(name) := v])
  {
    var done := Finished(cwd, made).value;
    var path := Normalized(cwd, Of(made, DbPath)).value;
    assert made[Other(name) := v][DbPath := path] == done[Other(name) := v];
    assert Writable(done);
  }

  lemma OtherIsKept(texts: Texts, world: World, options: Options, values: Values, random: Random, name: string,
                    v: Value)
    requires Rooted(world.cwd) && SetUpWith(texts, world, options, values, random).Some? && Unbroken(v)
    ensures SetUpWith(texts, world, options, values[Other(name) := v], random)
            == Some(SetUpWith(texts, world, options, values, random).value[Other(name) := v])
  {
    var sheet := SheetFor(texts, options, Normalized(world.cwd, options.databasePath).value, random);
    OtherIsNotAssigned(sheet, values, name, v);
    OtherIsNotChecked(texts, world, options, values, name, v);
    OtherIsNotChecked(texts, world, options, After(sheet, values), name, v);
    OtherIsFinished(world.cwd, After(sheet, values), name, v);
  }

  lemma KeyedOfOne(name: string, v: Value)
    ensures Keyed(map[name := v]) == map[Named(name) := v] && Keyed(map[]) == map[]
  {
    KeyedAt(map[name := v], name);
    SpellingOfNamed(name);
  }

  lemma QuotesAreOverLimit(printer: Printer, done: Values, name: string, n: nat)
    requires Orders(printer) && AllSpellable(done) && E.Writable(Spelled(done))
    requires Named(name) in done && done[Named(name)] == Units(Quotes(n)) && |name| + 2 * n + 3 >= E.MAX_LINE
    ensures !E.WithinLimits(Print(printer, Spelled(done)))
  {
    SpellingOfNamed(name);
    SpelledAt(done, Named(name));
    QuotedTwice(printer.isPrint, n);
    LongLineIsOverLimit(printer, Spelled(done), name);
  }

  lemma SetupKeepsSetting(printer: Printer, world: World, options: Options, random: Random, name: string, v: Value)
    requires Rooted(world.cwd) && Orders(printer) && Unbroken(v) && Named(name).Other?
    requires SetUpFile(printer, world, options, None, random).Some?
    ensures var done := SetUp(world, options, Keyed(map[name := v]), random);
            done.Some? && Named(name) in done.value && done.value[Named(name)] == v
  {
    SetUpFileIs(printer, world, options, None, random);
    SpellingOfNamed(name);
    KeyedOfOne(name, v);
    assert map[Other(name) := v] == map[][Other(name) := v];
    OtherIsKept(TEXTS, world, options, map[], random, name, v);
  }

  /**
   Where a setup without a file goes through, a setup of a file with one setting setup does not know goes through
   as well; but when the setting is short enough to be read and too long once it is quoted, every later setup fails.
   */
  lemma QuotedSettingIsTooLong(printer: Printer, world: World, options: Options, random: Random, again: Random,
                               name: string, n: nat)
    requires Orders(printer) && Lawful(world) && Generated(random)
    requires SetUpFile(printer, world, options, None, random).Some?
    requires E.IsKey(name) && Named(name).Other?
    requires |name| + n + 3 < E.MAX_LINE <= |name| + 2 * n + 3
    ensures var first := SetUpFile(printer, world, options, Some(Setting(name, n)), random);
            first.Some? && SetUpFile(printer, world, options, Some(first.value), again) == None
  {
    var v := Units(Quotes(n));
    SettingIsRead(name, n);
    QuotesArePlain(n);
    SetupKeepsSetting(printer, world, options, random, name, v);
    var done := SetUp(world, options, Keyed(map[name := v]), random).value;
    SetUpFileIs(printer, world, options, Some(Setting(name, n)), random);
    QuotesAreOverLimit(printer, done, name, n);
    SetupFileTwice(printer, world, options, Some(Setting(name, n)), random, again);
  }
}
