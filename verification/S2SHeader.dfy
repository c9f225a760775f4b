/**
 The server-to-server authorization header: printed by the sender, parsed by the receiver.
 */
module S2SHeader {
  import opened Wrappers
  import opened Text
  import Base64

  const PREFIX := "X-Gaia-S2S-V1 "
  const SIGNATURE_SIZE := 64

  datatype Header = Header(signature: seq<Byte>, keyId: string, timestamp: int)

  // ----- Domains

  predicate IsAlphaNumeric(c: char) { '0' <= c <= '9' || 'A' <= c <= 'Z' || 'a' <= c <= 'z' }

  predicate IsDomainByte(c: char) { IsAlphaNumeric(c) || c == '.' || c == '-' }

  predicate Domain(value: string) {
    && 3 <= |value| <= 253 && value[0] != '.' && value[|value| - 1] != '.'
    && forall i :: 0 <= i < |value| ==> IsDomainByte(value[i])
  }

  method IsDomain(value: string) returns (ok: bool)
    ensures ok == Domain(value)
  {
    if |value| < 3 || |value| > 253 {
      return false;
    }
    if value[0] == '.' || value[|value| - 1] == '.' {
      return false;
    }
    for i := 0 to |value|
      invariant forall j :: 0 <= j < i ==> IsDomainByte(value[j])
    {
      if !IsDomainByte(value[i]) {
        return false;
      }
    }
    return true;
  }

  // ----- Printing

  function Field(name: Name, value: string): string { Spelling(name) + "=" + ("\"" + value + "\"") }

  function Print(h: Header): string {
    PREFIX + Join([Field(Signature, Base64.Encode(h.signature, true)), Field(KeyId, h.keyId),
                   Field(Timestamp, DecimalInt(h.timestamp))], ',')
  }

  lemma JoinThree(a: string, b: string, c: string, sep: char)
    ensures Join([a, b, c], sep) == a + [sep] + (b + [sep] + c)
  {
    assert [a, b, c][1..] == [b, c] && [b, c][1..] == [c];
    assert Join([b, c], sep) == b + [sep] + c;
  }

  /** The text of a header: the scheme, then signature, key id and time, each named and quoted. */
  lemma PrintedAs(h: Header)
    ensures Print(h) == "X-Gaia-S2S-V1 " + (Printed("Signature", Base64.Encode(h.signature, true)) + [',']
            + (Printed("KeyId", h.keyId) + [','] + Printed("Timestamp", DecimalInt(h.timestamp))))
  {
    JoinThree(Field(Signature, Base64.Encode(h.signature, true)), Field(KeyId, h.keyId),
              Field(Timestamp, DecimalInt(h.timestamp)), ',');
  }

  function Printed(name: string, value: string): string { name + ['='] + (['"'] + value + ['"']) }

  // ----- Fields

  datatype Name = Signature | KeyId | Timestamp

  function Spelling(name: Name): string {
    match name
    case Signature => "Signature"
    case KeyId => "KeyId"
    case Timestamp => "Timestamp"
  }

  function NameOf(key: string): Option<Name> {
    if key == "Signature" then Some(Signature)
    else if key == "KeyId" then Some(KeyId)
    else if key == "Timestamp" then Some(Timestamp) else None
  }

  datatype Entry = Entry(name: Name, value: string)

  predicate Quoted(value: string) { |value| >= 2 && value[0] == '"' && value[|value| - 1] == '"' }

  /** One part of the header as a name and a value. */
  function EntryOf(part: string): Option<Entry> {
    match Cut(Trim(part), '=')
    case None => None
    case Some((key, value)) =>
      if NameOf(key).Some? && Quoted(value) then Some(Entry(NameOf(key).value, value[1..|value| - 1])) else None
  }

  /** The entries of the parts as a map, unless one is no entry or comes twice. */
  function Collected(entry: string -> Option<Entry>, parts: seq<string>): Option<map<Name, string>> {
    if parts == [] then Some(map[])
    else
      Extended(Collected(entry, parts[..|parts| - 1]), entry(parts[|parts| - 1]))
  }

  function Extended(before: Option<map<Name, string>>, e: Option<Entry>): Option<map<Name, string>> {
    if before.None? || e.None? || e.value.name in before.value then None
    else Some(before.value[e.value.name := e.value.value])
  }

  predicate Filled(fields: map<Name, string>) {
    && Signature in fields && KeyId in fields && Timestamp in fields
    && fields[Signature] != "" && fields[KeyId] != "" && fields[Timestamp] != ""
  }

  function Fields(input: string): Option<map<Name, string>> {
    var parts := Split(input, ',');
    var fields := Collected(EntryOf, parts);
    if |parts| == 3 && fields.Some? && Filled(fields.value) then fields else None
  }

  lemma {:induction false} CollectedPrefix(entry: string -> Option<Entry>, parts: seq<string>, n: nat)
    requires n <= |parts| && Collected(entry, parts[..n]).None?
    ensures Collected(entry, parts).None?
    decreases |parts| - n
  {
    if n < |parts| {
      assert parts[..n + 1][..n] == parts[..n];
      CollectedPrefix(entry, parts, n + 1);
    } else {
      assert parts[..n] == parts;
    }
  }

  lemma CollectedOneMore(entry: string -> Option<Entry>, parts: seq<string>, i: nat, result: map<Name, string>)
    requires i < |parts| && Collected(entry, parts[..i]) == Some(result)
    ensures entry(parts[i]).None? || entry(parts[i]).value.name in result ==> Collected(entry, parts).None?
    ensures entry(parts[i]).Some? && entry(parts[i]).value.name !in result ==>
              Collected(entry, parts[..i + 1])
                == Some(result[entry(parts[i]).value.name := entry(parts[i]).value.value])
  {
    assert parts[..i + 1][..i] == parts[..i];
    if Collected(entry, parts[..i + 1]).None? {
      CollectedPrefix(entry, parts, i + 1);
    }
  }

  method ParseField(part: string) returns (e: Option<Entry>)
    ensures e == EntryOf(part)
  {
    var cut := Cut(Trim(part), '=');
    if cut.None? {
      return None;
    }
    var (key, value) := cut.value;
    if key == "" || |value| < 2 || value[0] != '"' || value[|value| - 1] != '"' {
      return None;
    }
    var name := NameOf(key);
    if name.None? {
      return None;
    }
    return Some(Entry(name.value, value[1..|value| - 1]));
  }

  method ParseQuotedHeaderFields(input: string) returns (r: Option<map<Name, string>>)
    ensures r == Fields(input)
  {
    var result: map<Name, string> := map[];
    var parts := Split(input, ',');
    if |parts| != 3 {
      return None;
    }
    for i := 0 to |parts|
      invariant Collected(EntryOf, parts[..i]) == Some(result)
    {
      CollectedOneMore(EntryOf, parts, i, result);
      var e := ParseField(parts[i]);
      if e.None? {
        return None;
      }
      if e.value.name in result {
        return None;
      }
      result := result[e.value.name := e.value.value];
    }
    assert parts[..|parts|] == parts;
    AllThreeNames(EntryOf, parts);
    if result[Signature] == "" || result[KeyId] == "" || result[Timestamp] == "" {
      return None;
    }
    return Some(result);
  }

  // ----- What collecting means

  ghost function NamesIn(entry: string -> Option<Entry>, parts: seq<string>): set<Name> {
    set p | p in parts && entry(p).Some? :: entry(p).value.name
  }

  ghost predicate AllEntries(entry: string -> Option<Entry>, parts: seq<string>) {
    forall p :: p in parts ==> entry(p).Some?
  }

  ghost predicate Holds(entry: string -> Option<Entry>, parts: seq<string>, m: map<Name, string>) {
    && m.Keys == NamesIn(entry, parts)
    && forall p :: p in parts && entry(p).Some? ==>
        entry(p).value.name in m && m[entry(p).value.name] == entry(p).value.value
  }

  /** Collecting succeeds exactly on entries with different names, and then holds just them. */
  ghost predicate Collects(entry: string -> Option<Entry>, parts: seq<string>, r: Option<map<Name, string>>) {
    && (r.Some? <==> AllEntries(entry, parts) && |NamesIn(entry, parts)| == |parts|)
    && (r.Some? ==> Holds(entry, parts, r.value))
  }

  lemma {:induction false} FewNames(entry: string -> Option<Entry>, parts: seq<string>)
    ensures |NamesIn(entry, parts)| <= |parts|
  {
    if parts != [] {
      FewNames(entry, parts[..|parts| - 1]);
      OneMoreName(entry, parts[..|parts| - 1], parts[|parts| - 1]);
      assert parts == parts[..|parts| - 1] + [parts[|parts| - 1]];
    }
  }

  lemma OneMoreName(entry: string -> Option<Entry>, front: seq<string>, last: string)
    ensures NamesIn(entry, front + [last])
            == NamesIn(entry, front) + (if entry(last).Some? then {entry(last).value.name} else {})
    ensures AllEntries(entry, front + [last]) <==> AllEntries(entry, front) && entry(last).Some?
  {
    var parts := front + [last];
    assert forall p :: p in parts <==> p in front || p == last;
  }

  lemma HoldsOneMore(entry: string -> Option<Entry>, front: seq<string>, last: string, m: map<Name, string>)
    requires Holds(entry, front, m) && entry(last).Some? && entry(last).value.name !in m
    ensures Holds(entry, front + [last], m[entry(last).value.name := entry(last).value.value])
  {
    OneMoreName(entry, front, last);
    var e, parts := entry(last).value, front + [last];
    var more := m[e.name := e.value];
    assert more.Keys == m.Keys + {e.name};
    forall p | p in parts && entry(p).Some?
      ensures entry(p).value.name in more && more[entry(p).value.name] == entry(p).value.value
    {
      assert p in front || p == last;
    }
  }

  lemma CollectsOneMore(entry: string -> Option<Entry>, front: seq<string>, last: string,
                        before: Option<map<Name, string>>)
    requires Collects(entry, front, before)
    ensures Collects(entry, front + [last], Extended(before, entry(last)))
  {
    OneMoreName(entry, front, last);
    FewNames(entry, front);
    if before.Some? && entry(last).Some? && entry(last).value.name !in before.value {
      HoldsOneMore(entry, front, last, before.value);
    }
  }

  lemma {:induction false} CollectedCollects(entry: string -> Option<Entry>, parts: seq<string>)
    ensures Collects(entry, parts, Collected(entry, parts))
  {
    if parts != [] {
      var front, last := parts[..|parts| - 1], parts[|parts| - 1];
      assert parts == front + [last];
      CollectedCollects(entry, front);
      CollectsOneMore(entry, front, last, Collected(entry, front));
    }
  }

  lemma ThreeNames(names: set<Name>)
    requires |names| == 3
    ensures names == {Signature, KeyId, Timestamp}
  {
    var all := {Signature, KeyId, Timestamp};
    forall name ensures name in all {
      match name case Signature => case KeyId => case Timestamp =>
    }
    assert names <= all && |all - names| == |all| - |names|;
  }

  /** Three accepted fields are all three names. */
  lemma AllThreeNames(entry: string -> Option<Entry>, parts: seq<string>)
    requires |parts| == 3 && Collected(entry, parts).Some?
    ensures Collected(entry, parts).value.Keys == {Signature, KeyId, Timestamp}
  {
    CollectedCollects(entry, parts);
    ThreeNames(NamesIn(entry, parts));
  }

  lemma SameFields(entry: string -> Option<Entry>, parts: seq<string>, m: map<Name, string>, n: map<Name, string>)
    requires Holds(entry, parts, m) && Holds(entry, parts, n)
    ensures m == n
  {
    forall name | name in m ensures m[name] == n[name] {
      assert name in NamesIn(entry, parts);
    }
  }

  /** The order of the parts does not matter. */
  lemma CollectedInAnyOrder(entry: string -> Option<Entry>, a: seq<string>, b: seq<string>)
    requires multiset(a) == multiset(b)
    ensures Collected(entry, a) == Collected(entry, b)
  {
    assert |a| == |multiset(a)| == |b|;
    forall p ensures p in a <==> p in b {
      assert p in a <==> p in multiset(a);
      assert p in b <==> p in multiset(b);
    }
    assert NamesIn(entry, a) == NamesIn(entry, b);
    CollectedCollects(entry, a);
    CollectedCollects(entry, b);
    if Collected(entry, a).Some? {
      assert Holds(entry, a, Collected(entry, b).value);
      SameFields(entry, a, Collected(entry, a).value, Collected(entry, b).value);
    }
  }

  // ----- Parsing the header

  function Interpreted(fields: map<Name, string>): Option<Header>
    requires Filled(fields)
  {
    var signature := Base64.Decode(fields[Signature], true);
    var timestamp := ParseInt64(fields[Timestamp]);
    if signature.None? || |signature.value| != SIGNATURE_SIZE || !Domain(fields[KeyId]) || timestamp.None? then None
    else Some(Header(signature.value, fields[KeyId], timestamp.value))
  }

  function Parsed(header: string): Option<Header> {
    if !(PREFIX <= header) then None
    else
      var fields := Fields(header[|PREFIX|..]);
      if fields.None? then None else Interpreted(fields.value)
  }

  method ParseS2SHeader(header: string) returns (r: Option<Header>)
    ensures r == Parsed(header)
  {
    if !(PREFIX <= header) {
      return None;
    }
    var fields := ParseQuotedHeaderFields(header[|PREFIX|..]);
    if fields.None? {
      return None;
    }
    var signature := Base64.Decode(fields.value[Signature], true);
    if signature.None? {
      return None;
    }
    if |signature.value| != SIGNATURE_SIZE {
      return None;
    }
    var keyId := fields.value[KeyId];
    var ok := IsDomain(keyId);
    if !ok {
      return None;
    }
    var timestamp := ParseInt64(fields.value[Timestamp]);
    if timestamp.None? {
      return None;
    }
    return Some(Header(signature.value, keyId, timestamp.value));
  }

  // ----- Any order

  function Parts(parts: seq<string>): Option<Header> {
    var fields := Collected(EntryOf, parts);
    if fields.Some? && Filled(fields.value) then Interpreted(fields.value) else None
  }

  lemma ParsedJoined(a: string, b: string, c: string)
    requires Free(a, ',') && Free(b, ',') && Free(c, ',')
    ensures Parsed(PREFIX + Join([a, b, c], ',')) == Parts([a, b, c])
  {
    SplitOfJoin([a, b, c], ',');
    assert (PREFIX + Join([a, b, c], ','))[|PREFIX|..] == Join([a, b, c], ',');
  }

  lemma SameParts(a: string, b: string, c: string, x: string, y: string, z: string)
    requires multiset{a, b, c} == multiset{x, y, z}
    ensures multiset([a, b, c]) == multiset([x, y, z])
    ensures Free(a, ',') && Free(b, ',') && Free(c, ',') ==> Free(x, ',') && Free(y, ',') && Free(z, ',')
  {
    assert multiset([a, b, c]) == multiset{a, b, c};
    assert multiset([x, y, z]) == multiset{x, y, z};
    assert x in multiset{a, b, c} && y in multiset{a, b, c} && z in multiset{a, b, c};
  }

  /** Three comma-free parts parse alike in every order, whatever they hold. */
  lemma ParsedInAnyOrder(a: string, b: string, c: string, x: string, y: string, z: string)
    requires Free(a, ',') && Free(b, ',') && Free(c, ',') && multiset{a, b, c} == multiset{x, y, z}
    ensures Parsed(PREFIX + Join([a, b, c], ',')) == Parsed(PREFIX + Join([x, y, z], ','))
  {
    SameParts(a, b, c, x, y, z);
    ParsedJoined(a, b, c);
    ParsedJoined(x, y, z);
    CollectedInAnyOrder(EntryOf, [a, b, c], [x, y, z]);
  }

  // ----- Round trip

  lemma NameOfSpelling(name: Name)
    ensures NameOf(Spelling(name)) == Some(name) && Spelling(name) != "" && IsAlphaNumeric(Spelling(name)[0])
    ensures Free(Spelling(name), '=') && Free(Spelling(name), ',')
  {
  }

  lemma EntryOfField(name: Name, value: string)
    ensures EntryOf(Field(name, value)) == Some(Entry(name, value))
  {
    NameOfSpelling(name);
    var part, quoted := Field(name, value), "\"" + value + "\"";
    assert part == Spelling(name) + ['='] + quoted;
    assert part[0] == Spelling(name)[0] && part[|part| - 1] == '"';
    TrimOfTrimmed(part);
    CutAt(Spelling(name), '=', quoted);
    assert quoted[1..|quoted| - 1] == value;
  }

  lemma FieldIsFree(name: Name, value: string)
    requires Free(value, ',')
    ensures Free(Field(name, value), ',')
  {
    NameOfSpelling(name);
  }

  lemma ValuesAreFree(h: Header)
    requires Domain(h.keyId)
    ensures Free(Base64.Encode(h.signature, true), ',') && Free(h.keyId, ',') && Free(DecimalInt(h.timestamp), ',')
  {
    Base64.EncodeIsSymbols(h.signature, true);
    DecimalIntIsPlain(h.timestamp);
  }

  function Values(h: Header): map<Name, string> {
    map[Signature := Base64.Encode(h.signature, true), KeyId := h.keyId, Timestamp := DecimalInt(h.timestamp)]
  }

  lemma CollectedThree(entry: string -> Option<Entry>, a: string, b: string, c: string, x: string, y: string, z: string)
    requires entry(a) == Some(Entry(Signature, x)) && entry(b) == Some(Entry(KeyId, y))
             && entry(c) == Some(Entry(Timestamp, z))
    ensures Collected(entry, [a, b, c]) == Some(map[Signature := x, KeyId := y, Timestamp := z])
  {
    assert [a, b, c][..2] == [a, b] && [a, b][..1] == [a] && [a][..0] == [];
    assert Collected(entry, [a]) == Some(map[Signature := x]);
    assert Collected(entry, [a, b]) == Some(map[Signature := x, KeyId := y]);
  }

  lemma ValuesInterpreted(h: Header)
    requires |h.signature| == SIGNATURE_SIZE && Domain(h.keyId) && MIN_INT64 <= h.timestamp <= MAX_INT64
    ensures Filled(Values(h)) && Interpreted(Values(h)) == Some(h)
  {
    Base64.EncodeIsSymbols(h.signature, true);
    DecimalIntIsPlain(h.timestamp);
    Base64.RoundTrip(h.signature, true);
    ParseOfDecimalInt(h.timestamp);
  }

  /** Parsing what was printed gives the same header. */
  lemma HeaderRoundTrip(h: Header)
    requires |h.signature| == SIGNATURE_SIZE && Domain(h.keyId) && MIN_INT64 <= h.timestamp <= MAX_INT64
    ensures Parsed(Print(h)) == Some(h)
  {
    var x, y, z := Base64.Encode(h.signature, true), h.keyId, DecimalInt(h.timestamp);
    var a, b, c := Field(Signature, x), Field(KeyId, y), Field(Timestamp, z);
    ValuesAreFree(h);
    FieldIsFree(Signature, x);
    FieldIsFree(KeyId, y);
    FieldIsFree(Timestamp, z);
    ParsedJoined(a, b, c);
    EntryOfField(Signature, x);
    EntryOfField(KeyId, y);
    EntryOfField(Timestamp, z);
    CollectedThree(EntryOf, a, b, c, x, y, z);
    ValuesInterpreted(h);
    assert Print(h) == PREFIX + Join([a, b, c], ',');
  }
}
