/**
 How the variables setup knows are spelled, and which names of a file they are.
 */
module EnvironmentNames {
  import opened Wrappers
  import opened Text
  import opened Quoting
  import opened EnvironmentFile
  import opened SetupValues

  /** The words of a name, which underscores join. */
  function Words(key: Key): seq<string>
    requires !key.Other?
  {
    match key
    case DevMode => ["GAIACOM", "DEV", "MODE"]
    case ServerName => ["GAIACOM", "SERVER", "NAME"]
    case BindAddress => ["SERVER", "BIND", "ADDRESS"]
    case AllowPublicBind => ["GAIACOM", "ALLOW", "PUBLIC", "BIND"]
    case DbDriver => ["DB", "DRIVER"]
    case CookieSecure => ["GAIACOM", "COOKIE", "SECURE"]
    case DbPath => ["DB", "PATH"]
    case ServerPort => ["SERVER", "PORT"]
    case OpenRegistration => ["OPEN", "REGISTRATION"]
    case JwtSecret => ["GAIACOM", "JWT", "SECRET"]
    case LegacyJwtSecret => ["JWT", "SECRET"]
    case PrivateKey => ["GAIACOM", "SERVER", "PRIVATE", "KEY"]
    case MetricsToken => ["GAIACOM", "METRICS", "TOKEN"]
    case ShieldSecret => ["GAIACOM", "SHIELD", "SECRET"]
    case EpochSecret => ["GAIACOM", "TRUSTMESH", "EPOCH", "SECRET"]
  }

  function Spelling(key: Key): string { if key.Other? then key.name else Join(Words(key), '_') }

  function OfTwo(a: string, b: string): Option<Key> {
    if a == "DB" && b == "DRIVER" then Some(DbDriver)
    else if a == "DB" && b == "PATH" then Some(DbPath)
    else if a == "SERVER" && b == "PORT" then Some(ServerPort)
    else if a == "OPEN" && b == "REGISTRATION" then Some(OpenRegistration)
    else if a == "JWT" && b == "SECRET" then Some(LegacyJwtSecret)
    else None
  }

  function OfThree(a: string, b: string, c: string): Option<Key> {
    if a == "SERVER" && b == "BIND" && c == "ADDRESS" then Some(BindAddress)
    else if a != "GAIACOM" then None
    else if b == "DEV" && c == "MODE" then Some(DevMode)
    else if b == "SERVER" && c == "NAME" then Some(ServerName)
    else if b == "COOKIE" && c == "SECURE" then Some(CookieSecure)
    else if b == "JWT" && c == "SECRET" then Some(JwtSecret)
    else if b == "METRICS" && c == "TOKEN" then Some(MetricsToken)
    else if b == "SHIELD" && c == "SECRET" then Some(ShieldSecret)
    else None
  }

  function OfFour(a: string, b: string, c: string, d: string): Option<Key> {
    if a != "GAIACOM" then None
    else if b == "ALLOW" && c == "PUBLIC" && d == "BIND" then Some(AllowPublicBind)
    else if b == "SERVER" && c == "PRIVATE" && d == "KEY" then Some(PrivateKey)
    else if b == "TRUSTMESH" && c == "EPOCH" && d == "SECRET" then Some(EpochSecret)
    else None
  }

  function OfWords(words: seq<string>): Option<Key> {
    if |words| == 2 then OfTwo(words[0], words[1])
    else if |words| == 3 then OfThree(words[0], words[1], words[2])
    else if |words| == 4 then OfFour(words[0], words[1], words[2], words[3])
    else None
  }

  lemma OfTheWords(key: Key)
    requires !key.Other?
    ensures OfWords(Words(key)) == Some(key)
  {
  }

  lemma WordsOf(words: seq<string>)
    requires OfWords(words).Some?
    ensures !OfWords(words).value.Other? && Words(OfWords(words).value) == words
  {
  }

  /** The variable a name stands for. */
  function Named(name: string): Key {
    var key := OfWords(Split(name, '_'));
    if key.Some? then key.value else Other(name)
  }

  /** Every name is the spelling of what it stands for. */
  lemma SpellingOfNamed(name: string)
    ensures Spelling(Named(name)) == name
  {
    JoinOfSplit(name, '_');
    if OfWords(Split(name, '_')).Some? {
      WordsOf(Split(name, '_'));
    }
  }

  predicate IsWord(word: string) { word != [] && IsUpper(word[0]) && forall i :: 0 <= i < |word| ==> IsUpper(word[i]) }

  predicate AllWords(words: seq<string>) { forall i :: 0 <= i < |words| ==> IsWord(words[i]) }

  lemma FirstWords()
    ensures IsWord("GAIACOM") && IsWord("DEV") && IsWord("MODE") && IsWord("SERVER") && IsWord("NAME")
    ensures IsWord("BIND") && IsWord("ADDRESS") && IsWord("ALLOW") && IsWord("PUBLIC") && IsWord("DB")
  {
  }

  lemma MiddleWords()
    ensures IsWord("DRIVER") && IsWord("COOKIE") && IsWord("SECURE") && IsWord("PATH") && IsWord("PORT")
    ensures IsWord("OPEN") && IsWord("REGISTRATION") && IsWord("JWT") && IsWord("SECRET") && IsWord("PRIVATE")
  {
  }

  lemma LastWords()
    ensures IsWord("KEY") && IsWord("METRICS") && IsWord("TOKEN") && IsWord("SHIELD") && IsWord("TRUSTMESH")
    ensures IsWord("EPOCH")
  {
  }

  lemma WordsAreWords(key: Key)
    requires !key.Other?
    ensures |Words(key)| > 0 && AllWords(Words(key))
  {
    FirstWords();
    MiddleWords();
    LastWords();
  }

  lemma WordsAreFree(words: seq<string>)
    requires AllWords(words)
    ensures AllFree(words, '_')
  {
  }

  lemma {:induction false} JoinedWordsAreAKey(words: seq<string>)
    requires |words| > 0 && AllWords(words)
    ensures IsKey(Join(words, '_'))
  {
    if |words| > 1 {
      JoinedWordsAreAKey(words[1..]);
    }
  }

  /** Known variables stand for themselves, and are spelled as a file wants its keys. */
  lemma NamedOfSpelling(key: Key)
    requires !key.Other?
    ensures Named(Spelling(key)) == key && IsKey(Spelling(key))
  {
    WordsAreWords(key);
    WordsAreFree(Words(key));
    SplitOfJoin(Words(key), '_');
    OfTheWords(key);
    JoinedWordsAreAKey(Words(key));
  }

  // ----- Maps by name and by variable

  /** A variable a name can stand for. */
  predicate Spellable(key: Key) { Named(Spelling(key)) == key }

  lemma NamedIsSpellable(name: string)
    ensures Spellable(Named(name))
  {
    SpellingOfNamed(name);
  }

  lemma NamesAreSpelled()
    ensures forall name {:trigger Named(name)} :: Spelling(Named(name)) == name
  {
    forall name ensures Spelling(Named(name)) == name {
      SpellingOfNamed(name);
    }
  }

  predicate AllSpellable(values: map<Key, Value>) { forall key :: key in values ==> Spellable(key) }

  /** The settings of a file, by variable. */
  function Keyed(env: map<string, Value>): map<Key, Value> {
    NamesAreSpelled();
    map key | key in (set name | name in env :: Named(name)) :: env[Spelling(key)]
  }

  /** And back. */
  function Spelled(values: map<Key, Value>): map<string, Value>
    requires AllSpellable(values)
  {
    map name | name in (set key | key in values :: Spelling(key)) :: values[Named(name)]
  }

  lemma KeyedIsSpellable(env: map<string, Value>)
    ensures AllSpellable(Keyed(env))
  {
    NamesAreSpelled();
  }

  lemma KeyedAt(env: map<string, Value>, name: string)
    ensures Named(name) in Keyed(env) <==> name in env
    ensures name in env ==> Keyed(env)[Named(name)] == env[name]
  {
    NamesAreSpelled();
  }

  lemma SpelledAt(values: map<Key, Value>, key: Key)
    requires AllSpellable(values) && Spellable(key)
    ensures Spelling(key) in Spelled(values) <==> key in values
    ensures key in values ==> Spelled(values)[Spelling(key)] == values[key]
  {
  }

  /** Spelling the variables and naming them again gives them back. */
  lemma KeyedOfSpelled(values: map<Key, Value>)
    requires AllSpellable(values)
    ensures Keyed(Spelled(values)) == values
  {
    var env := Spelled(values);
    KeyedIsSpellable(env);
    forall key | Spellable(key)
      ensures (key in Keyed(env) <==> key in values) && (key in values ==> Keyed(env)[key] == values[key])
    {
      SpelledAt(values, key);
      KeyedAt(env, Spelling(key));
    }
  }
}
