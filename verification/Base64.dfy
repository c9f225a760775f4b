/**
 Base64 as section 4 of RFC 4648 has it, with padding, and without as its section 3.2
 allows. Decoding skips line breaks and does not look at unused trailing bits.
 */
module Base64 {
  import opened Wrappers

  type Sextet = x: int | 0 <= x < 64

  function Symbol(n: Sextet): char {
    if n < 26 then 'A' + n as char
    else if n < 52 then 'a' + (n - 26) as char
    else if n < 62 then '0' + (n - 52) as char
    else if n == 62 then '+' else '/'
  }

  function Index(c: char): Option<Sextet> {
    if 'A' <= c <= 'Z' then Some((c - 'A') as int)
    else if 'a' <= c <= 'z' then Some((c - 'a') as int + 26)
    else if '0' <= c <= '9' then Some((c - '0') as int + 52)
    else if c == '+' then Some(62)
    else if c == '/' then Some(63) else None
  }

  lemma IndexOfSymbol(n: Sextet)
    ensures Index(Symbol(n)) == Some(n)
  {
  }

  function Encode(b: seq<Byte>, padded: bool): string {
    if b == [] then ""
    else if |b| == 1 then [Symbol(b[0] / 4), Symbol(b[0] % 4 * 16)] + (if padded then "==" else "")
    else if |b| == 2 then
      [Symbol(b[0] / 4), Symbol(b[0] % 4 * 16 + b[1] / 16), Symbol(b[1] % 16 * 4)] + (if padded then "=" else "")
    else
      [Symbol(b[0] / 4), Symbol(b[0] % 4 * 16 + b[1] / 16), Symbol(b[1] % 16 * 4 + b[2] / 64), Symbol(b[2] % 64)]
      + Encode(b[3..], padded)
  }

  function First(x: Sextet, y: Sextet): Byte { x * 4 + y / 16 }
  function Second(y: Sextet, z: Sextet): Byte { y % 16 * 16 + z / 4 }
  function Third(z: Sextet, w: Sextet): Byte { z % 4 * 64 + w }

  /** The last, incomplete group. */
  function DecodeTail(s: string): Option<seq<Byte>>
    requires |s| < 4
  {
    if s == [] then Some([])
    else if |s| == 1 || Index(s[0]).None? || Index(s[1]).None? then None
    else if |s| == 2 then Some([First(Index(s[0]).value, Index(s[1]).value)])
    else if Index(s[2]).None? then None
    else Some([First(Index(s[0]).value, Index(s[1]).value), Second(Index(s[1]).value, Index(s[2]).value)])
  }

  function Unpadded(s: string): string
    requires |s| == 4
  {
    if s[3] != '=' then s else if s[2] != '=' then s[..3] else s[..2]
  }

  function DecodeGroups(s: string, padded: bool): Option<seq<Byte>> {
    if |s| < 4 then (if padded && s != [] then None else DecodeTail(s))
    else if padded && |s| == 4 && s[3] == '=' then DecodeTail(Unpadded(s))
    else if Index(s[0]).None? || Index(s[1]).None? || Index(s[2]).None? || Index(s[3]).None? then None
    else
      var rest := DecodeGroups(s[4..], padded);
      if rest.None? then None
      else Some([First(Index(s[0]).value, Index(s[1]).value), Second(Index(s[1]).value, Index(s[2]).value),
                 Third(Index(s[2]).value, Index(s[3]).value)] + rest.value)
  }

  function WithoutBreaks(s: string): string {
    if s == [] then [] else (if s[0] == '\n' || s[0] == '\r' then [] else [s[0]]) + WithoutBreaks(s[1..])
  }

  function Decode(s: string, padded: bool): Option<seq<Byte>> { DecodeGroups(WithoutBreaks(s), padded) }

  predicate IsSymbol(c: char) { Index(c).Some? || c == '=' }

  lemma {:induction false} EncodeIsSymbols(b: seq<Byte>, padded: bool)
    ensures forall i :: 0 <= i < |Encode(b, padded)| ==> IsSymbol(Encode(b, padded)[i])
    ensures b != [] ==> |Encode(b, padded)| >= 2
  {
    if |b| >= 3 {
      EncodeIsSymbols(b[3..], padded);
    }
  }

  lemma {:induction false} SymbolsAreKept(s: string)
    requires forall i :: 0 <= i < |s| ==> IsSymbol(s[i])
    ensures WithoutBreaks(s) == s
  {
    if s != [] {
      SymbolsAreKept(s[1..]);
    }
  }

  lemma {:induction false} GroupsRoundTrip(b: seq<Byte>, padded: bool)
    ensures DecodeGroups(Encode(b, padded), padded) == Some(b)
  {
    if |b| >= 3 {
      GroupsRoundTrip(b[3..], padded);
      GroupRoundTrip(b, padded);
    } else {
      TailRoundTrip(b, padded);
    }
  }

  lemma FirstBack(x: Byte, y: Sextet)
    requires y < 16
    ensures First(x / 4, x % 4 * 16 + y) == x
  {
  }

  lemma SecondBack(x: Sextet, y: Byte, z: Sextet)
    requires x < 4 && z < 4
    ensures Second(x * 16 + y / 16, y % 16 * 4 + z) == y
  {
    assert (x * 16 + y / 16) % 16 == y / 16;
    assert (y % 16 * 4 + z) / 4 == y % 16;
  }

  lemma ThirdBack(y: Sextet, z: Byte)
    requires y < 16
    ensures Third(y * 4 + z / 64, z % 64) == z
  {
    assert (y * 4 + z / 64) % 4 == z / 64;
  }

  lemma GroupSymbols(b: seq<Byte>, padded: bool)
    requires |b| >= 3
    ensures var s := Encode(b, padded);
            && |s| >= 4 && s[4..] == Encode(b[3..], padded)
            && Index(s[0]) == Some(b[0] / 4) && Index(s[1]) == Some(b[0] % 4 * 16 + b[1] / 16)
            && Index(s[2]) == Some(b[1] % 16 * 4 + b[2] / 64) && Index(s[3]) == Some(b[2] % 64)
  {
    IndexOfSymbol(b[0] / 4);
    IndexOfSymbol(b[0] % 4 * 16 + b[1] / 16);
    IndexOfSymbol(b[1] % 16 * 4 + b[2] / 64);
    IndexOfSymbol(b[2] % 64);
  }

  lemma GroupRoundTrip(b: seq<Byte>, padded: bool)
    requires |b| >= 3 && DecodeGroups(Encode(b[3..], padded), padded) == Some(b[3..])
    ensures DecodeGroups(Encode(b, padded), padded) == Some(b)
  {
    var x, y, z, w := b[0] / 4, b[0] % 4 * 16 + b[1] / 16, b[1] % 16 * 4 + b[2] / 64, b[2] % 64;
    GroupSymbols(b, padded);
    GroupDecodes(Encode(b, padded), padded, x, y, z, w);
    assert First(x, y) == b[0] && Second(y, z) == b[1] && Third(z, w) == b[2] by {
      FirstBack(b[0], b[1] / 16);
      SecondBack(b[0] % 4, b[1], b[2] / 64);
      ThirdBack(b[1] % 16, b[2]);
    }
    assert b == [b[0], b[1], b[2]] + b[3..];
  }

  lemma GroupDecodes(s: string, padded: bool, x: Sextet, y: Sextet, z: Sextet, w: Sextet)
    requires |s| >= 4 && Index(s[0]) == Some(x) && Index(s[1]) == Some(y) && Index(s[2]) == Some(z)
             && Index(s[3]) == Some(w)
    requires DecodeGroups(s[4..], padded).Some?
    ensures DecodeGroups(s, padded)
            == Some([First(x, y), Second(y, z), Third(z, w)] + DecodeGroups(s[4..], padded).value)
  {
  }

  lemma TailRoundTrip(b: seq<Byte>, padded: bool)
    requires |b| < 3
    ensures DecodeGroups(Encode(b, padded), padded) == Some(b)
  {
    if |b| == 1 {
      assert Encode(b, padded)[..2] == Encode(b, false);
      IndexOfSymbol(b[0] / 4);
      IndexOfSymbol(b[0] % 4 * 16);
      assert DecodeTail(Encode(b, false)) == Some([b[0]]) && b == [b[0]] by {
        FirstBack(b[0], 0);
      }
    } else if |b| == 2 {
      assert Encode(b, padded)[..3] == Encode(b, false);
      IndexOfSymbol(b[0] / 4);
      IndexOfSymbol(b[0] % 4 * 16 + b[1] / 16);
      IndexOfSymbol(b[1] % 16 * 4);
      assert Index('=') == None;
      assert DecodeTail(Encode(b, false)) == Some([b[0], b[1]]) && b == [b[0], b[1]] by {
        FirstBack(b[0], b[1] / 16);
        SecondBack(b[0] % 4, b[1], 0);
      }
    }
  }

  /** Decoding undoes encoding, for all bytes and both alphabets' padding. */
  lemma RoundTrip(b: seq<Byte>, padded: bool)
    ensures Decode(Encode(b, padded), padded) == Some(b)
  {
    EncodeIsSymbols(b, padded);
    SymbolsAreKept(Encode(b, padded));
    GroupsRoundTrip(b, padded);
  }

  lemma OneGroup(a: Byte, b: Byte, c: Byte, padded: bool)
    ensures Encode([a, b, c], padded)
            == [Symbol(a / 4), Symbol(a % 4 * 16 + b / 16), Symbol(b % 16 * 4 + c / 64), Symbol(c % 64)]
  {
    assert [a, b, c][3..] == [];
  }

  /** The examples of section 10 of RFC 4648, and one for the two symbols that are neither letter nor digit. */
  lemma KnownAnswers()
    ensures Encode([0x66], true) == "Zg==" && Encode([0x66, 0x6F], true) == "Zm8="
    ensures Encode([0x66, 0x6F, 0x6F], true) == "Zm9v" && Encode([0x66], false) == "Zg"
    ensures Encode([0xFB, 0xEF, 0xFF], true) == "++//"
  {
    OneGroup(0x66, 0x6F, 0x6F, true);
    OneGroup(0xFB, 0xEF, 0xFF, true);
  }
}
