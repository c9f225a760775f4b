/**
 What reading an environment file comes to, without the order in which it goes about it:
 which files are read, and what is then known.
 */
module EnvironmentReading {
  import opened Wrappers
  import opened Text
  import opened Quoting
  import opened EnvironmentFile

  /** The key a line sets, if it sets one. */
  function KeyOf(line: string): Option<string> {
    if MeaningOf(line).Setting? then Some(MeaningOf(line).key) else None
  }

  function KeysOf(lines: seq<string>): (keys: seq<Option<string>>)
    ensures |keys| == |lines| && forall i :: 0 <= i < |lines| ==> keys[i] == KeyOf(lines[i])
  {
    seq(|lines|, i requires 0 <= i < |lines| => KeyOf(lines[i]))
  }

  predicate Repeats(keys: seq<Option<string>>) {
    exists i, j :: 0 <= i < j < |keys| && keys[i].Some? && keys[i] == keys[j]
  }

  /** Every line is short and says something or nothing, and no key is set twice. */
  predicate Readable(lines: seq<string>) {
    && (forall i :: 0 <= i < |lines| ==> Size(lines[i]) < 131072 && !MeaningOf(lines[i]).Malformed?)
    && !Repeats(KeysOf(lines))
  }

  /** Nothing the lines set is known before. */
  predicate News(values: Values, keys: seq<Option<string>>) {
    forall i :: 0 <= i < |keys| && keys[i].Some? ==> keys[i].value !in values
  }

  /** What was known, and what each line sets, and nothing else. */
  predicate Holds(r: Values, values: Values, lines: seq<string>) {
    && (forall k :: k in values ==> k in r && r[k] == values[k])
    && (forall i :: 0 <= i < |lines| && MeaningOf(lines[i]).Setting? ==>
          MeaningOf(lines[i]).key in r && r[MeaningOf(lines[i]).key] == MeaningOf(lines[i]).value)
    && (forall k :: k in r ==> k in values || Some(k) in KeysOf(lines))
  }

  lemma RepeatsFirst(keys: seq<Option<string>>)
    requires keys != []
    ensures Repeats(keys) <==> Repeats(keys[1..]) || (keys[0].Some? && keys[0] in keys[1..])
  {
    var rest := keys[1..];
    if Repeats(keys) {
      var i, j :| 0 <= i < j < |keys| && keys[i].Some? && keys[i] == keys[j];
      assert rest[j - 1] == keys[j] && (i > 0 ==> rest[i - 1] == keys[i]);
    }
    if Repeats(rest) {
      var i, j :| 0 <= i < j < |rest| && rest[i].Some? && rest[i] == rest[j];
      assert keys[i + 1] == keys[j + 1];
    }
  }

  lemma NewsFirst(values: Values, keys: seq<Option<string>>, v: Value)
    requires keys != []
    ensures keys[0].None? ==> (News(values, keys) <==> News(values, keys[1..]))
    ensures keys[0].Some? ==>
              (News(values, keys) && keys[0] !in keys[1..] <==>
               keys[0].value !in values && News(values[keys[0].value := v], keys[1..]))
  {
    var rest := keys[1..];
    assert forall i :: 1 <= i < |keys| ==> keys[i] == rest[i - 1];
    assert forall i :: 0 <= i < |rest| ==> rest[i] == keys[i + 1];
  }

  /** The first line's part in being readable. */
  lemma ReadableFirst(values: Values, lines: seq<string>)
    requires lines != []
    ensures Readable(lines) && News(values, KeysOf(lines)) <==>
              var first, keys := MeaningOf(lines[0]), KeysOf(lines[1..]);
              && Size(lines[0]) < 131072 && !first.Malformed? && Readable(lines[1..])
              && (first.Setting? ==> first.key !in values && News(values[first.key := first.value], keys))
              && (first.Nothing? ==> News(values, keys))
  {
    var rest, keys, first := lines[1..], KeysOf(lines), MeaningOf(lines[0]);
    assert forall i :: 1 <= i < |lines| ==> lines[i] == rest[i - 1];
    assert forall i :: 0 <= i < |rest| ==> rest[i] == lines[i + 1];
    assert keys[1..] == KeysOf(rest);
    RepeatsFirst(keys);
    NewsFirst(values, keys, if first.Setting? then first.value else []);
  }

  lemma HoldsFirst(r: Values, values: Values, lines: seq<string>)
    requires lines != [] && !MeaningOf(lines[0]).Malformed?
    requires MeaningOf(lines[0]).Setting? ==> MeaningOf(lines[0]).key !in values
    requires var first := MeaningOf(lines[0]);
             Holds(r, if first.Setting? then values[first.key := first.value] else values, lines[1..])
    ensures Holds(r, values, lines)
  {
    var rest, keys := lines[1..], KeysOf(lines);
    assert forall i :: 1 <= i < |lines| ==> lines[i] == rest[i - 1];
    assert keys[1..] == KeysOf(rest) && keys == [keys[0]] + keys[1..];
  }

  lemma {:induction false} LinesAreRead(values: Values, lines: seq<string>)
    ensures ReadLines(values, lines).Some? <==> Readable(lines) && News(values, KeysOf(lines))
    ensures ReadLines(values, lines).Some? ==> Holds(ReadLines(values, lines).value, values, lines)
    decreases |lines|
  {
    if lines != [] {
      ReadableFirst(values, lines);
      var next := ReadLine(values, lines[0]);
      if next.Some? {
        LinesAreRead(next.value, lines[1..]);
        if ReadLines(values, lines).Some? {
          HoldsFirst(ReadLines(values, lines).value, values, lines);
        }
      }
    }
  }

  /**
   A file is read exactly if it has at most 1 MiB, every line has less than 128 KiB and is blank, a comment or a
   setting, and no key is set twice. What is known then is what its lines set, and nothing else.
   */
  lemma ReadExactly(file: string)
    ensures Read(file).Some? <==> Size(file) <= 1048576 && Readable(Lines(file))
    ensures Read(file).Some? ==> Holds(Read(file).value, map[], Lines(file))
  {
    LinesAreRead(map[], Lines(file));
  }

  /** Between single quotes everything stands for itself; without quotes, everything but NUL and line breaks. */
  lemma ValuesAsWritten(s: string)
    ensures ParsedValue(['\''] + s + ['\'']) == Some(Units(s))
    ensures s != [] && s[0] != '"' && s[0] != '\'' ==>
              ParsedValue(s) == if Unbroken(Units(s)) then Some(Units(s)) else None
    ensures ParsedValue([]) == Some([])
  {
    var raw := ['\''] + s + ['\''];
    assert raw[1..|raw| - 1] == s;
  }
}
