/**
 Texts as the parsers see them: splitting, cutting, trimming and decimal numbers.
 */
module Text {
  import opened Wrappers

  // ----- Splitting

  /** The first position of a character, or the length. */
  function IndexOf<T(==)>(s: seq<T>, c: T): (i: nat)
    ensures i <= |s| && (forall j :: 0 <= j < i ==> s[j] != c) && (i < |s| ==> s[i] == c)
  {
    if s == [] || s[0] == c then 0 else 1 + IndexOf(s[1..], c)
  }

  function Split<T(==)>(s: seq<T>, sep: T): (parts: seq<seq<T>>)
    ensures |parts| >= 1
    decreases |s|
  {
    var i := IndexOf(s, sep);
    if i == |s| then [s] else [s[..i]] + Split(s[i + 1..], sep)
  }

  function Cut<T(==)>(s: seq<T>, sep: T): Option<(seq<T>, seq<T>)> {
    var i := IndexOf(s, sep);
    if i == |s| then None else Some((s[..i], s[i + 1..]))
  }

  predicate Free<T(==)>(s: seq<T>, c: T) { forall i :: 0 <= i < |s| ==> s[i] != c }

  lemma CutAt<T>(a: seq<T>, sep: T, b: seq<T>)
    requires Free(a, sep)
    ensures Cut(a + [sep] + b, sep) == Some((a, b))
  {
    var s := a + [sep] + b;
    assert forall j :: 0 <= j < |a| ==> s[j] == a[j];
    assert s[|a|] == sep;
    assert IndexOf(s, sep) == |a|;
    assert s[..|a|] == a && s[|a| + 1..] == b;
  }

  lemma SplitFirst<T>(a: seq<T>, sep: T, b: seq<T>)
    requires Free(a, sep)
    ensures Split(a + [sep] + b, sep) == [a] + Split(b, sep)
  {
    CutAt(a, sep, b);
  }

  lemma SplitLast<T>(a: seq<T>, sep: T)
    requires Free(a, sep)
    ensures Split(a, sep) == [a]
  {
    assert IndexOf(a, sep) == |a|;
  }

  function Join<T>(parts: seq<seq<T>>, sep: T): seq<T>
    requires |parts| >= 1
  {
    if |parts| == 1 then parts[0] else parts[0] + [sep] + Join(parts[1..], sep)
  }

  predicate AllFree<T(==)>(parts: seq<seq<T>>, c: T) { forall i :: 0 <= i < |parts| ==> Free(parts[i], c) }

  /** Splitting undoes joining. */
  lemma {:induction false} SplitOfJoin<T>(parts: seq<seq<T>>, sep: T)
    requires |parts| >= 1 && AllFree(parts, sep)
    ensures Split(Join(parts, sep), sep) == parts
  {
    if |parts| == 1 {
      SplitLast(parts[0], sep);
    } else {
      SplitOfJoin(parts[1..], sep);
      SplitFirst(parts[0], sep, Join(parts[1..], sep));
    }
  }

  /** And joining undoes splitting. */
  lemma {:induction false} JoinOfSplit<T>(s: seq<T>, sep: T)
    ensures Join(Split(s, sep), sep) == s
    decreases |s|
  {
    var i := IndexOf(s, sep);
    if i < |s| {
      var rest := Split(s[i + 1..], sep);
      JoinOfSplit(s[i + 1..], sep);
      assert ([s[..i]] + rest)[1..] == rest;
      assert s[..i] + [sep] + s[i + 1..] == s;
    }
  }

  lemma {:induction false} JoinIsFree<T>(parts: seq<seq<T>>, sep: T, c: T)
    requires |parts| >= 1 && AllFree(parts, c) && c != sep
    ensures Free(Join(parts, sep), c)
  {
    if |parts| > 1 {
      JoinIsFree(parts[1..], sep, c);
    }
  }

  /** What a split leaves free of the separator, and of anything the text is free of. */
  lemma {:induction false} SplitIsFree<T>(s: seq<T>, sep: T, c: T)
    requires c == sep || Free(s, c)
    ensures AllFree(Split(s, sep), c)
    decreases |s|
  {
    var i := IndexOf(s, sep);
    if i < |s| {
      SplitIsFree(s[i + 1..], sep, c);
    }
  }

  lemma {:induction false} JoinOfTwo<T>(p: seq<seq<T>>, q: seq<seq<T>>, sep: T)
    requires |p| >= 1 && |q| >= 1
    ensures Join(p + q, sep) == Join(p, sep) + [sep] + Join(q, sep)
  {
    assert (p + q)[1..] == p[1..] + q;
    if |p| == 1 {
      assert p[1..] + q == q;
    } else {
      JoinOfTwo(p[1..], q, sep);
    }
  }

  /** A text is split at any separator into what lies before it and what lies after. */
  lemma SplitOfTwo<T>(a: seq<T>, sep: T, b: seq<T>)
    ensures Split(a + [sep] + b, sep) == Split(a, sep) + Split(b, sep)
  {
    var p, q := Split(a, sep), Split(b, sep);
    JoinOfSplit(a, sep);
    JoinOfSplit(b, sep);
    JoinOfTwo(p, q, sep);
    SplitIsFree(a, sep, sep);
    SplitIsFree(b, sep, sep);
    SplitOfJoin(p + q, sep);
  }

  // ----- White space

  /** The Unicode white space that trimming removes. */
  predicate IsSpace(c: char) {
    var n := c as int;
    9 <= n <= 13 || n == 0x20 || n == 0x85 || n == 0xA0 || n == 0x1680 || 0x2000 <= n <= 0x200A
    || n == 0x2028 || n == 0x2029 || n == 0x202F || n == 0x205F || n == 0x3000
  }

  function TrimLeft(s: string): string {
    if s != [] && IsSpace(s[0]) then TrimLeft(s[1..]) else s
  }

  function TrimRight(s: string): string {
    if s != [] && IsSpace(s[|s| - 1]) then TrimRight(s[..|s| - 1]) else s
  }

  function Trim(s: string): string { TrimRight(TrimLeft(s)) }

  predicate Trimmed(s: string) { s == [] || (!IsSpace(s[0]) && !IsSpace(s[|s| - 1])) }

  lemma TrimOfTrimmed(s: string)
    requires Trimmed(s)
    ensures Trim(s) == s
  {
  }

  /** Bytes of a character in UTF-8. */
  function Width(c: char): nat {
    var n := c as int;
    if n < 0x80 then 1 else if n < 0x800 then 2 else if n < 0x10000 then 3 else 4
  }

  // ----- Lower case

  /** ASCII, capital letters aside, is in lower case already. */
  ghost predicate LowersAscii(lower: char -> char) {
    forall c: char :: c as int < 0x80 && !('A' <= c <= 'Z') ==> lower(c) == c
  }

  // ----- Decimal numbers

  predicate IsDigit(c: char) { '0' <= c <= '9' }

  predicate Digits(s: string) { forall i :: 0 <= i < |s| ==> IsDigit(s[i]) }

  function Digit(n: nat): char
    requires n < 10
  {
    '0' + n as char
  }

  function Decimal(n: nat): (s: string)
    ensures |s| >= 1 && Digits(s)
  {
    if n < 10 then [Digit(n)] else Decimal(n / 10) + [Digit(n % 10)]
  }

  function Value(s: string): nat
    requires Digits(s)
  {
    if s == [] then 0 else Value(s[..|s| - 1]) * 10 + (s[|s| - 1] - '0') as nat
  }

  lemma {:induction false} ValueOfDecimal(n: nat)
    ensures Value(Decimal(n)) == n
  {
    if n >= 10 {
      ValueOfDecimal(n / 10);
      var s := Decimal(n);
      assert s[..|s| - 1] == Decimal(n / 10);
    }
  }

  /** `ParseUint` in base ten: digits only, and no more than the width allows. */
  function ParseUint(s: string, max: nat): Option<nat> {
    if s != [] && Digits(s) && Value(s) <= max then Some(Value(s)) else None
  }

  const MAX_INT64: int := 0x7FFF_FFFF_FFFF_FFFF
  const MIN_INT64: int := -0x8000_0000_0000_0000

  function DecimalInt(n: int): string { if n < 0 then "-" + Decimal(-n) else Decimal(n) }

  /** A number within 64 bits, given its sign and digits. */
  function Signed(negative: bool, digits: string): Option<int> {
    if digits == [] || !Digits(digits) then None
    else
      var v: int := Value(digits);
      var n: int := if negative then 0 - v else v;
      if MIN_INT64 <= n <= MAX_INT64 then Some(n) else None
  }

  /** `ParseInt` in base ten and 64 bits: one sign is allowed. */
  function ParseInt64(s: string): Option<int> {
    if s != [] && (s[0] == '+' || s[0] == '-') then Signed(s[0] == '-', s[1..]) else Signed(false, s)
  }

  lemma ParseOfDecimal(n: nat, max: nat)
    requires n <= max
    ensures ParseUint(Decimal(n), max) == Some(n)
  {
    ValueOfDecimal(n);
  }

  lemma ParseOfDecimalInt(n: int)
    requires MIN_INT64 <= n <= MAX_INT64
    ensures ParseInt64(DecimalInt(n)) == Some(n)
  {
    if n < 0 {
      ValueOfDecimal(-n);
      assert Signed(true, Decimal(-n)) == Some(n);
      assert DecimalInt(n)[1..] == Decimal(-n);
    } else {
      ValueOfDecimal(n);
      assert Signed(false, Decimal(n)) == Some(n);
      assert IsDigit(Decimal(n)[0]);
    }
  }

  /** Decimal numbers hold nothing but digits and a sign. */
  lemma DecimalIntIsPlain(n: int)
    ensures forall i :: 0 <= i < |DecimalInt(n)| ==> IsDigit(DecimalInt(n)[i]) || DecimalInt(n)[i] == '-'
    ensures DecimalInt(n) != []
  {
  }
}
