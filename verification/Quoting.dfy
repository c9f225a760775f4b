/**
 Quoted values: what `strconv.Quote` prints and `strconv.Unquote` reads. A value is any
 byte string, seen as its characters and the bytes that are not part of one.
 */
module Quoting {
  import opened Wrappers
  import opened Text

  /** A byte of a value that does not belong to a well-formed character is at least 0x80. */
  type HighByte = x: int | 0x80 <= x < 0x100 witness 0x80

  datatype Unit = Rune(c: char) | Raw(b: HighByte)

  type Value = seq<Unit>

  function Units(s: string): Value {
    if s == [] then [] else [Rune(s[0])] + Units(s[1..])
  }

  /** Free of what a line of the environment file cannot hold. */
  predicate Unbroken(v: Value) { Free(v, Rune('\0')) && Free(v, Rune('\r')) && Free(v, Rune('\n')) }

  // ----- Hexadecimal and octal digits

  function HexDigit(n: nat): char
    requires n < 16
  {
    if n < 10 then '0' + n as char else 'a' + (n - 10) as char
  }

  function DigitValue(c: char): Option<nat> {
    if '0' <= c <= '9' then Some((c - '0') as nat)
    else if 'a' <= c <= 'f' then Some((c - 'a') as nat + 10)
    else if 'A' <= c <= 'F' then Some((c - 'A') as nat + 10) else None
  }

  function Power(k: nat): nat { if k == 0 then 1 else 16 * Power(k - 1) }

  function Hex(n: nat, k: nat): string {
    if k == 0 then [] else Hex(n / 16, k - 1) + [HexDigit(n % 16)]
  }

  /** The number the digits of a text make up, in a base of at most 16. */
  function Number(s: string, base: nat): Option<nat> {
    if s == [] then Some(0)
    else
      var high, low := Number(s[..|s| - 1], base), DigitValue(s[|s| - 1]);
      if high.None? || low.None? || low.value >= base then None else Some(high.value * base + low.value)
  }

  lemma {:induction false} NumberOfHex(n: nat, k: nat)
    requires n < Power(k)
    ensures Number(Hex(n, k), 16) == Some(n) && |Hex(n, k)| == k
  {
    if k > 0 {
      NumberOfHex(n / 16, k - 1);
      assert Hex(n, k)[..k - 1] == Hex(n / 16, k - 1);
    }
  }

  // ----- Quoting

  function Letter(c: char): Option<char> {
    match c as int
    case 7 => Some('a')
    case 8 => Some('b')
    case 9 => Some('t')
    case 10 => Some('n')
    case 11 => Some('v')
    case 12 => Some('f')
    case 13 => Some('r')
    case _ => None
  }

  /** How a unit is printed between quotes; what is printable is up to the caller. */
  function Escaped(isPrint: char -> bool, u: Unit): string {
    match u
    case Raw(b) => ['\\', 'x'] + Hex(b, 2)
    case Rune(c) =>
      if c == '"' || c == '\\' then ['\\', c]
      else if isPrint(c) then [c]
      else if Letter(c).Some? then ['\\', Letter(c).value]
      else if c < ' ' || c as int == 0x7F then ['\\', 'x'] + Hex(c as int, 2)
      else if c as int < 0x10000 then ['\\', 'u'] + Hex(c as int, 4)
      else ['\\', 'U'] + Hex(c as int, 8)
  }

  function EscapedAll(isPrint: char -> bool, v: Value): string {
    if v == [] then [] else Escaped(isPrint, v[0]) + EscapedAll(isPrint, v[1..])
  }

  function Quote(isPrint: char -> bool, v: Value): string { ['"'] + EscapedAll(isPrint, v) + ['"'] }

  // ----- Unquoting

  function OfLetter(c: char): Option<char> {
    if c == 'a' then Some(7 as char)
    else if c == 'b' then Some(8 as char)
    else if c == 't' then Some(9 as char)
    else if c == 'n' then Some(10 as char)
    else if c == 'v' then Some(11 as char)
    else if c == 'f' then Some(12 as char)
    else if c == 'r' then Some(13 as char)
    else None
  }

  function ByteUnit(n: nat): Unit
    requires n < 256
  {
    if n < 0x80 then Rune(n as char) else Raw(n)
  }

  predicate IsScalar(n: nat) { n < 0xD800 || 0xE000 <= n < 0x110000 }

  /** A numeric escape of `k` digits: one byte, or one character. */
  function Numeric(s: string, k: nat, base: nat, asByte: bool): Option<(Unit, string)> {
    if |s| < k then None
    else
      var n := Number(s[..k], base);
      if n.None? then None
      else if asByte then (if n.value < 256 then Some((ByteUnit(n.value), s[k..])) else None)
      else if IsScalar(n.value) then Some((Rune(n.value as char), s[k..])) else None
  }

  /** `UnquoteChar` for double quotes: one unit and what follows. */
  function UnquoteChar(s: string): Option<(Unit, string)>
    requires s != []
  {
    if s[0] == '"' then None
    else if s[0] != '\\' then Some((Rune(s[0]), s[1..]))
    else if |s| < 2 then None
    else
      var c, rest := s[1], s[2..];
      if OfLetter(c).Some? then Some((Rune(OfLetter(c).value), rest))
      else if c == 'x' then Numeric(rest, 2, 16, true)
      else if c == 'u' then Numeric(rest, 4, 16, false)
      else if c == 'U' then Numeric(rest, 8, 16, false)
      else if '0' <= c <= '7' then Numeric(s[1..], 3, 8, true)
      else if c == '\\' || c == '"' then Some((Rune(c), rest))
      else None
  }

  lemma UnquoteCharIsShorter(s: string)
    requires s != [] && UnquoteChar(s).Some?
    ensures |UnquoteChar(s).value.1| < |s|
  {
  }

  /** Units up to the closing quote, which must end the text. */
  function Unescaped(s: string): Option<Value>
    decreases |s|
  {
    if s == [] || s[0] == '\n' then None
    else if s[0] == '"' then (if |s| == 1 then Some([]) else None)
    else
      var first := UnquoteChar(s);
      if first.None? then None
      else
        UnquoteCharIsShorter(s);
        var rest := Unescaped(first.value.1);
        if rest.None? then None else Some([first.value.0] + rest.value)
  }

  // ----- Round trip

  lemma NumericOfHex(n: nat, k: nat, rest: string, asByte: bool)
    requires n < Power(k) && (if asByte then n < 256 else IsScalar(n))
    ensures Numeric(Hex(n, k) + rest, k, 16, asByte) == Some((if asByte then ByteUnit(n) else Rune(n as char), rest))
  {
    NumberOfHex(n, k);
    assert (Hex(n, k) + rest)[..k] == Hex(n, k) && (Hex(n, k) + rest)[k..] == rest;
  }

  lemma Powers()
    ensures Power(2) == 0x100 && Power(4) == 0x1_0000 && Power(8) == 0x1_0000_0000
  {
    assert Power(3) == 16 * Power(2) && Power(5) == 16 * Power(4) && Power(7) == 16 * Power(6);
  }

  lemma UnquoteOfMark(mark: char, digits: string, rest: string)
    ensures mark == 'x' ==> UnquoteChar(['\\', mark] + digits + rest) == Numeric(digits + rest, 2, 16, true)
    ensures mark == 'u' ==> UnquoteChar(['\\', mark] + digits + rest) == Numeric(digits + rest, 4, 16, false)
    ensures mark == 'U' ==> UnquoteChar(['\\', mark] + digits + rest) == Numeric(digits + rest, 8, 16, false)
  {
    var s := ['\\', mark] + digits + rest;
    assert s[2..] == digits + rest;
  }

  lemma UnquoteOfRaw(b: HighByte, rest: string)
    ensures UnquoteChar(['\\', 'x'] + Hex(b, 2) + rest) == Some((Raw(b), rest))
  {
    Powers();
    NumericOfHex(b, 2, rest, true);
    UnquoteOfMark('x', Hex(b, 2), rest);
  }

  lemma UnquoteOfCode(c: char, mark: char, k: nat, rest: string)
    requires (mark == 'x' && k == 2 && c as int < 0x80) || (mark == 'u' && k == 4 && c as int < 0x10000)
             || (mark == 'U' && k == 8)
    ensures UnquoteChar(['\\', mark] + Hex(c as int, k) + rest) == Some((Rune(c), rest))
  {
    Powers();
    NumericOfHex(c as int, k, rest, mark == 'x');
    UnquoteOfMark(mark, Hex(c as int, k), rest);
  }

  /** Reading one printed unit gives it back. */
  lemma UnquoteOfEscaped(isPrint: char -> bool, u: Unit, rest: string)
    ensures UnquoteChar(Escaped(isPrint, u) + rest) == Some((u, rest))
  {
    match u
    case Raw(b) => UnquoteOfRaw(b, rest);
    case Rune(c) =>
      if c == '"' || c == '\\' {
        assert (['\\', c] + rest)[2..] == rest;
      } else if isPrint(c) {
        assert ([c] + rest)[1..] == rest;
      } else if Letter(c).Some? {
        assert (['\\', Letter(c).value] + rest)[2..] == rest;
      } else if c < ' ' || c as int == 0x7F {
        UnquoteOfCode(c, 'x', 2, rest);
      } else if c as int < 0x10000 {
        UnquoteOfCode(c, 'u', 4, rest);
      } else {
        UnquoteOfCode(c, 'U', 8, rest);
      }
  }

  lemma EscapedStarts(isPrint: char -> bool, u: Unit)
    requires u != Rune('\n')
    ensures Escaped(isPrint, u) != [] && Escaped(isPrint, u)[0] != '"' && Escaped(isPrint, u)[0] != '\n'
  {
  }

  /** Reading a printed value gives it back, whatever counts as printable. */
  lemma {:induction false} UnescapedOfEscaped(isPrint: char -> bool, v: Value)
    requires Rune('\n') !in v
    ensures Unescaped(EscapedAll(isPrint, v) + ['"']) == Some(v)
  {
    if v != [] {
      UnescapedOfEscaped(isPrint, v[1..]);
      var first, rest := Escaped(isPrint, v[0]), EscapedAll(isPrint, v[1..]) + ['"'];
      EscapedStarts(isPrint, v[0]);
      UnquoteOfEscaped(isPrint, v[0], rest);
      UnescapedOneMore(first, rest, v[0], v[1..]);
      assert EscapedAll(isPrint, v) + ['"'] == first + rest;
      assert v == [v[0]] + v[1..];
    }
  }

  lemma UnescapedOneMore(first: string, rest: string, u: Unit, v: Value)
    requires first != [] && first[0] != '"' && first[0] != '\n' && UnquoteChar(first + rest) == Some((u, rest))
             && Unescaped(rest) == Some(v)
    ensures Unescaped(first + rest) == Some([u] + v)
  {
  }

  // ----- What quoting keeps out

  lemma {:induction false} HexIsPlain(n: nat, k: nat)
    ensures forall i :: 0 <= i < |Hex(n, k)| ==> DigitValue(Hex(n, k)[i]).Some?
  {
    if k > 0 {
      HexIsPlain(n / 16, k - 1);
    }
  }

  lemma EscapedKeepsOut(isPrint: char -> bool, u: Unit, c: char)
    requires (c == '\n' || c == '\r') && u != Rune(c)
    ensures Free(Escaped(isPrint, u), c)
  {
    match u
    case Raw(b) => HexIsPlain(b, 2);
    case Rune(d) =>
      HexIsPlain(d as int, 2);
      HexIsPlain(d as int, 4);
      HexIsPlain(d as int, 8);
  }

  /** No line break gets into the text unless it was in the value. */
  lemma {:induction false} QuoteKeepsOut(isPrint: char -> bool, v: Value, c: char)
    requires (c == '\n' || c == '\r') && Rune(c) !in v
    ensures Free(EscapedAll(isPrint, v), c)
  {
    if v != [] {
      EscapedKeepsOut(isPrint, v[0], c);
      QuoteKeepsOut(isPrint, v[1..], c);
    }
  }

  /** What is printed: quotation mark and backslash always escaped, the printable as it is, the other control
      characters by letter or number. */
  lemma KnownEscapes(isPrint: char -> bool)
    ensures Escaped(isPrint, Rune('"')) == "\\\"" && Escaped(isPrint, Rune('\\')) == "\\\\"
    ensures forall c :: c != '"' && c != '\\' && isPrint(c) ==> Escaped(isPrint, Rune(c)) == [c]
    ensures !isPrint('\n') ==> Escaped(isPrint, Rune('\n')) == "\\n"
    ensures !isPrint('\r') ==> Escaped(isPrint, Rune('\r')) == "\\r"
    ensures !isPrint('\t') ==> Escaped(isPrint, Rune('\t')) == "\\t"
    ensures !isPrint(7 as char) ==> Escaped(isPrint, Rune(7 as char)) == "\\a"
    ensures !isPrint(8 as char) ==> Escaped(isPrint, Rune(8 as char)) == "\\b"
    ensures !isPrint(11 as char) ==> Escaped(isPrint, Rune(11 as char)) == "\\v"
    ensures !isPrint(12 as char) ==> Escaped(isPrint, Rune(12 as char)) == "\\f"
    ensures !isPrint(0x1F as char) ==> Escaped(isPrint, Rune(0x1F as char)) == ['\\', 'x'] + Hex(0x1F, 2)
    ensures !isPrint(0xAD as char) ==> Escaped(isPrint, Rune(0xAD as char)) == ['\\', 'u'] + Hex(0xAD, 4)
  {
  }

  /** Hexadecimal in small letters, highest digit first. */
  lemma KnownNumbers()
    ensures Hex(0x1F, 2) == "1f" && Hex(0xAD, 4) == "00ad"
  {
    assert Hex(0x1F, 2) == Hex(1, 1) + [HexDigit(15)];
    assert Hex(1, 1) == Hex(0, 0) + [HexDigit(1)];
    assert Hex(0xAD, 4) == Hex(0xA, 3) + [HexDigit(13)];
    assert Hex(0xA, 3) == Hex(0, 2) + [HexDigit(10)];
    assert Hex(0, 2) == Hex(0, 1) + [HexDigit(0)];
    assert Hex(0, 1) == Hex(0, 0) + [HexDigit(0)];
  }
}
