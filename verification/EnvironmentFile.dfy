/**
 The environment file: how it is written, how it is read, and that reading gives back
 what was written.
 */
module EnvironmentFile {
  import opened Wrappers
  import opened Text
  import opened Quoting

  const MAX_FILE := 0x10_0000
  const MAX_LINE := 0x2_0000

  type Values = map<string, Value>

  // ----- Sizes

  function Size(s: string): nat { if s == [] then 0 else Width(s[0]) + Size(s[1..]) }

  // ----- Keys and values

  predicate IsUpper(c: char) { 'A' <= c <= 'Z' }

  predicate IsKey(key: string) {
    key != [] && IsUpper(key[0]) && forall i :: 0 <= i < |key| ==> IsUpper(key[i]) || IsDigit(key[i]) || key[i] == '_'
  }

  function ParsedValue(raw: string): Option<Value> {
    if raw == [] then Some([])
    else if raw[0] == '"' || raw[0] == '\'' then
      if |raw| < 2 || raw[|raw| - 1] != raw[0] then None
      else if raw[0] == '\'' then Some(Units(raw[1..|raw| - 1]))
      else Unescaped(raw[1..])
    else if Unbroken(Units(raw)) then Some(Units(raw)) else None
  }

  // ----- Reading

  function Lines(file: string): seq<string> {
    var parts := Split(file, '\n');
    if parts[|parts| - 1] == [] then parts[..|parts| - 1] else parts
  }

  function WithoutReturn(line: string): string {
    if line != [] && line[|line| - 1] == '\r' then line[..|line| - 1] else line
  }

  datatype Meaning = Nothing | Malformed | Setting(key: string, value: Value)

  function MeaningOf(line: string): Meaning {
    var text := Trim(WithoutReturn(line));
    if text == [] || text[0] == '#' then Nothing
    else
      match Cut(text, '=')
      case None => Malformed
      case Some((key, raw)) =>
        var value := ParsedValue(Trim(raw));
        if !IsKey(Trim(key)) || value.None? then Malformed else Setting(Trim(key), value.value)
  }

  function ReadLine(values: Values, line: string): Option<Values> {
    if Size(line) >= MAX_LINE then None
    else
      match MeaningOf(line)
      case Nothing => Some(values)
      case Malformed => None
      case Setting(key, value) => if key in values then None else Some(values[key := value])
  }

  function ReadLines(values: Values, lines: seq<string>): Option<Values>
    decreases |lines|
  {
    if lines == [] then Some(values)
    else
      var next := ReadLine(values, lines[0]);
      if next.None? then None else ReadLines(next.value, lines[1..])
  }

  function Read(file: string): Option<Values> {
    if Size(file) > MAX_FILE then None else ReadLines(map[], Lines(file))
  }

  method ParseEnvironmentValue(raw: string) returns (r: Option<Value>)
    ensures r == ParsedValue(raw)
  {
    if raw == "" {
      return Some([]);
    }
    if raw[0] == '"' || raw[0] == '\'' {
      if |raw| < 2 || raw[|raw| - 1] != raw[0] {
        return None;
      }
      if raw[0] == '\'' {
        return Some(Units(raw[1..|raw| - 1]));
      }
      return Unescaped(raw[1..]);
    }
    if !Unbroken(Units(raw)) {
      return None;
    }
    return Some(Units(raw));
  }

  method ReadEnvironmentFile(file: string) returns (r: Option<Values>)
    ensures r == Read(file)
  {
    if Size(file) > MAX_FILE {
      return None;
    }
    var values: Values := map[];
    var lines := Lines(file);
    for i := 0 to |lines|
      invariant ReadLines(map[], lines) == ReadLines(values, lines[i..])
    {
      assert lines[i..][0] == lines[i] && lines[i..][1..] == lines[i + 1..];
      if Size(lines[i]) >= MAX_LINE {
        return None;
      }
      var line := Trim(WithoutReturn(lines[i]));
      if line == "" || line[0] == '#' {
        continue;
      }
      var cut := Cut(line, '=');
      if cut.None? {
        return None;
      }
      var key := Trim(cut.value.0);
      if !IsKey(key) {
        return None;
      }
      if key in values {
        return None;
      }
      var value := ParseEnvironmentValue(Trim(cut.value.1));
      if value.None? {
        return None;
      }
      values := values[key := value.value];
    }
    return Some(values);
  }

  // ----- Writing

  const FIRST_COMMENT := Sentence(["# GaiaCom ", "managed ", "production ", "environment"])
  const SECOND_COMMENT := Sentence(["# Secrets are ", "generated ", "once and ", "preserved ", "across ", "updates."])

  function Sentence(words: seq<string>): string { if words == [] then "" else words[0] + Sentence(words[1..]) }

  function LineFor(isPrint: char -> bool, key: string, v: Value): string { key + ['='] + Quote(isPrint, v) }

  /** The settings in the order of the keys. */
  function Body(isPrint: char -> bool, keys: seq<string>, values: Values): string
    requires forall i :: 0 <= i < |keys| ==> keys[i] in values
  {
    if keys == [] then [] else LineFor(isPrint, keys[0], values[keys[0]]) + ['\n'] + Body(isPrint, keys[1..], values)
  }

  function Written(isPrint: char -> bool, keys: seq<string>, values: Values): string
    requires forall i :: 0 <= i < |keys| ==> keys[i] in values
  {
    Headed(FIRST_COMMENT, SECOND_COMMENT, Body(isPrint, keys, values))
  }

  function Headed(first: string, second: string, body: string): string { first + ['\n'] + (second + ['\n'] + body) }

  /** Every key of the map, once. */
  ghost predicate Enumerates(keys: seq<string>, values: Values) {
    && (forall k :: k in keys <==> k in values)
    && (forall i, j :: 0 <= i < j < |keys| ==> keys[i] != keys[j])
  }

  predicate Writable(values: Values) { forall k :: k in values ==> IsKey(k) && Unbroken(values[k]) }

  method AreKeys(keys: seq<string>) returns (ok: bool)
    ensures ok <==> forall i :: 0 <= i < |keys| ==> IsKey(keys[i])
  {
    for i := 0 to |keys|
      invariant forall j :: 0 <= j < i ==> IsKey(keys[j])
    {
      if !IsKey(keys[i]) {
        return false;
      }
    }
    return true;
  }

  lemma BodyOneMore(isPrint: char -> bool, keys: seq<string>, values: Values, i: nat, text: string)
    requires i < |keys| && (forall j :: 0 <= j < |keys| ==> keys[j] in values)
    requires text + Body(isPrint, keys[i..], values) == Body(isPrint, keys, values)
    ensures text + (LineFor(isPrint, keys[i], values[keys[i]]) + ['\n']) + Body(isPrint, keys[i + 1..], values)
            == Body(isPrint, keys, values)
  {
    assert keys[i..][0] == keys[i] && keys[i..][1..] == keys[i + 1..];
    var line, rest := LineFor(isPrint, keys[i], values[keys[i]]) + ['\n'], Body(isPrint, keys[i + 1..], values);
    assert text + (line + rest) == text + line + rest;
  }

  method WriteBody(isPrint: char -> bool, keys: seq<string>, values: Values) returns (text: Option<string>)
    requires forall i :: 0 <= i < |keys| ==> keys[i] in values
    ensures text == if forall i :: 0 <= i < |keys| ==> Unbroken(values[keys[i]]) then Some(Body(isPrint, keys, values))
            else None
  {
    var written := "";
    for i := 0 to |keys|
      invariant forall j :: 0 <= j < i ==> Unbroken(values[keys[j]])
      invariant written + Body(isPrint, keys[i..], values) == Body(isPrint, keys, values)
    {
      if !Unbroken(values[keys[i]]) {
        return None;
      }
      BodyOneMore(isPrint, keys, values, i, written);
      written := written + (LineFor(isPrint, keys[i], values[keys[i]]) + ['\n']);
    }
    assert Body(isPrint, keys[|keys|..], values) == [] && written + [] == written;
    return Some(written);
  }

  /** The text is what the settings in order give, or nothing when one cannot be written. */
  method WriteEnvironment(isPrint: char -> bool, keys: seq<string>, values: Values) returns (file: Option<string>)
    requires Enumerates(keys, values)
    ensures file == if Writable(values) then Some(Written(isPrint, keys, values)) else None
  {
    WritableByKeys(keys, values);
    var ok := AreKeys(keys);
    if !ok {
      return None;
    }
    var body := WriteBody(isPrint, keys, values);
    if body.None? {
      return None;
    }
    return Some(Headed(FIRST_COMMENT, SECOND_COMMENT, body.value));
  }

  lemma WritableByKeys(keys: seq<string>, values: Values)
    requires Enumerates(keys, values)
    ensures (forall i :: 0 <= i < |keys| ==> keys[i] in values)
    ensures Writable(values) <==> forall i :: 0 <= i < |keys| ==> IsKey(keys[i]) && Unbroken(values[keys[i]])
  {
    forall i | 0 <= i < |keys| ensures keys[i] in values {
      assert keys[i] in keys;
    }
    if forall i :: 0 <= i < |keys| ==> IsKey(keys[i]) && Unbroken(values[keys[i]]) {
      forall k | k in values ensures IsKey(k) && Unbroken(values[k]) {
        assert k in keys;
      }
    }
  }

  // ----- Reading back

  lemma LinesFirst(line: string, rest: string)
    requires Free(line, '\n')
    ensures Lines(line + ['\n'] + rest) == [line] + Lines(rest)
  {
    SplitFirst(line, '\n', rest);
    var parts := Split(rest, '\n');
    assert ([line] + parts)[..|parts|] == [line] + parts[..|parts| - 1];
  }

  lemma KeyIsPlain(key: string)
    requires IsKey(key)
    ensures Free(key, '=') && Free(key, '\n') && Trim(key) == key && key[0] != '#' && !IsSpace(key[0])
  {
    TrimOfTrimmed(key);
  }

  lemma QuoteIsPlain(isPrint: char -> bool, v: Value)
    requires Unbroken(v)
    ensures Free(Quote(isPrint, v), '\n') && Trim(Quote(isPrint, v)) == Quote(isPrint, v)
  {
    QuoteKeepsOut(isPrint, v, '\n');
    TrimOfTrimmed(Quote(isPrint, v));
  }

  lemma ParsedOfQuote(isPrint: char -> bool, v: Value)
    requires Unbroken(v)
    ensures ParsedValue(Quote(isPrint, v)) == Some(v)
  {
    UnescapedOfEscaped(isPrint, v);
    var raw := Quote(isPrint, v);
    assert raw[1..] == EscapedAll(isPrint, v) + ['"'];
  }

  /** A written setting is read as that setting. */
  lemma MeaningOfLine(isPrint: char -> bool, key: string, v: Value)
    requires IsKey(key) && Unbroken(v)
    ensures Free(LineFor(isPrint, key, v), '\n') && MeaningOf(LineFor(isPrint, key, v)) == Setting(key, v)
  {
    var line, raw := LineFor(isPrint, key, v), Quote(isPrint, v);
    KeyIsPlain(key);
    QuoteIsPlain(isPrint, v);
    assert line[0] == key[0] && line[|line| - 1] == '"';
    TrimOfTrimmed(line);
    CutAt(key, '=', raw);
    ParsedOfQuote(isPrint, v);
  }

  predicate IsComment(line: string) {
    line != [] && line[0] == '#' && !IsSpace(line[|line| - 1]) && Free(line, '\n')
  }

  lemma CommentIsSkipped(line: string)
    requires IsComment(line)
    ensures MeaningOf(line) == Nothing
  {
    TrimOfTrimmed(line);
  }

  lemma {:induction false} SentenceIsComment(words: seq<string>, first: bool)
    requires words != [] && AllFree(words, '\n') && (forall i :: 0 <= i < |words| ==> words[i] != [])
    requires words[0][0] == '#' || !first
    requires !IsSpace(words[|words| - 1][|words[|words| - 1]| - 1])
    ensures Sentence(words) != [] && !IsSpace(Sentence(words)[|Sentence(words)| - 1]) && Free(Sentence(words), '\n')
    ensures first ==> IsComment(Sentence(words))
  {
    if |words| > 1 {
      SentenceIsComment(words[1..], false);
    }
  }

  lemma CommentsAreComments()
    ensures IsComment(FIRST_COMMENT) && IsComment(SECOND_COMMENT)
  {
    SentenceIsComment(["# GaiaCom ", "managed ", "production ", "environment"], true);
    SentenceIsComment(["# Secrets are ", "generated ", "once and ", "preserved ", "across ", "updates."], true);
  }

  predicate ShortLines(lines: seq<string>) { forall i :: 0 <= i < |lines| ==> Size(lines[i]) < MAX_LINE }

  lemma {:induction false} LongLineIsRefused(values: Values, lines: seq<string>)
    requires !ShortLines(lines)
    ensures ReadLines(values, lines) == None
    decreases |lines|
  {
    if Size(lines[0]) < MAX_LINE {
      var next := ReadLine(values, lines[0]);
      if next.Some? {
        var i :| 0 <= i < |lines| && Size(lines[i]) >= MAX_LINE;
        assert lines[1..][i - 1] == lines[i];
        LongLineIsRefused(next.value, lines[1..]);
      }
    }
  }

  function Settings(keys: seq<string>, values: Values): Values { map k | k in keys && k in values :: values[k] }

  lemma ReadFirst(values: Values, line: string, lines: seq<string>)
    requires ShortLines([line] + lines)
    ensures ShortLines(lines)
    ensures MeaningOf(line) == Nothing ==> ReadLines(values, [line] + lines) == ReadLines(values, lines)
    ensures MeaningOf(line).Setting? && MeaningOf(line).key !in values ==>
              ReadLines(values, [line] + lines)
                == ReadLines(values[MeaningOf(line).key := MeaningOf(line).value], lines)
  {
    var all := [line] + lines;
    assert all[0] == line && all[1..] == lines;
    forall i | 0 <= i < |lines| ensures Size(lines[i]) < MAX_LINE {
      assert all[i + 1] == lines[i];
    }
  }

  /** The settings are read on top of what was read before. */
  lemma {:induction false} BodyIsRead(isPrint: char -> bool, keys: seq<string>, values: Values, before: Values)
    requires Writable(values) && (forall i :: 0 <= i < |keys| ==> keys[i] in values && keys[i] !in before)
    requires forall i, j :: 0 <= i < j < |keys| ==> keys[i] != keys[j]
    requires ShortLines(Lines(Body(isPrint, keys, values)))
    ensures ReadLines(before, Lines(Body(isPrint, keys, values))) == Some(before + Settings(keys, values))
  {
    if keys == [] {
      assert Lines([]) == [];
      assert before + Settings(keys, values) == before;
    } else {
      var key, rest := keys[0], keys[1..];
      var line := LineFor(isPrint, key, values[key]);
      MeaningOfLine(isPrint, key, values[key]);
      LinesFirst(line, Body(isPrint, rest, values));
      ReadFirst(before, line, Lines(Body(isPrint, rest, values)));
      BodyIsRead(isPrint, rest, values, before[key := values[key]]);
      SettingsFirst(keys, values, before);
    }
  }

  lemma SettingsFirst(keys: seq<string>, values: Values, before: Values)
    requires keys != [] && keys[0] in values && keys[0] !in keys[1..]
    ensures before[keys[0] := values[keys[0]]] + Settings(keys[1..], values) == before + Settings(keys, values)
  {
    assert forall k :: k in keys <==> k == keys[0] || k in keys[1..];
  }

  predicate WithinLimits(file: string) { Size(file) <= MAX_FILE && ShortLines(Lines(file)) }

  lemma HeadedIsRead(first: string, second: string, body: string)
    requires IsComment(first) && IsComment(second) && ShortLines(Lines(Headed(first, second, body)))
    ensures ShortLines(Lines(body))
            && ReadLines(map[], Lines(Headed(first, second, body))) == ReadLines(map[], Lines(body))
  {
    LinesFirst(first, second + ['\n'] + body);
    LinesFirst(second, body);
    CommentIsSkipped(first);
    CommentIsSkipped(second);
    ReadFirst(map[], first, [second] + Lines(body));
    ReadFirst(map[], second, Lines(body));
  }

  lemma WrittenIsRead(isPrint: char -> bool, keys: seq<string>, values: Values)
    requires Writable(values) && Enumerates(keys, values) && (forall i :: 0 <= i < |keys| ==> keys[i] in values)
    requires ShortLines(Lines(Body(isPrint, keys, values)))
    ensures ReadLines(map[], Lines(Body(isPrint, keys, values))) == Some(values)
  {
    BodyIsRead(isPrint, keys, values, map[]);
    SettingsOfAll(keys, values);
  }

  lemma SettingsOfAll(keys: seq<string>, values: Values)
    requires forall k :: k in keys <==> k in values
    ensures map[] + Settings(keys, values) == values
  {
  }

  /** Reading what was written gives the same map exactly when the text is within the size limits,
      for every order of the keys. */
  lemma EnvironmentRoundTrip(isPrint: char -> bool, keys: seq<string>, values: Values)
    requires Writable(values) && Enumerates(keys, values)
    ensures forall i :: 0 <= i < |keys| ==> keys[i] in values
    ensures Read(Written(isPrint, keys, values))
            == (if WithinLimits(Written(isPrint, keys, values)) then Some(values) else None)
  {
    WritableByKeys(keys, values);
    var file := Written(isPrint, keys, values);
    if Size(file) <= MAX_FILE {
      if ShortLines(Lines(file)) {
        CommentsAreComments();
        HeadedIsRead(FIRST_COMMENT, SECOND_COMMENT, Body(isPrint, keys, values));
        WrittenIsRead(isPrint, keys, values);
      } else {
        LongLineIsRefused(map[], Lines(file));
      }
    }
  }
}
