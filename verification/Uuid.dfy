/**
 Canonical UUID text: the generator of message ids, the parser and the printer of
 the backend, and how the three fit together. Version and variant bits are those
 of section 5.4 of RFC 9562.
 */
module Uuid {
  import opened Wrappers

  const HEX_TABLE := "0123456789abcdef"

  /** The text of a UUID: 32 hex digits and four dashes. */
  const LENGTH := 36

  predicate IsDash(position: int) { position == 8 || position == 13 || position == 18 || position == 23 }

  /** How many hex digits stand before a position. */
  function DigitsBefore(position: nat): int {
    position - (if position > 23 then 4 else if position > 18 then 3 else if position > 13 then 2 else if position > 8
                then 1 else 0)
  }

  /** Where the n-th hex digit stands. */
  function PositionOf(digit: nat): nat {
    digit + (if digit >= 20 then 4 else if digit >= 16 then 3 else if digit >= 12 then 2 else if digit >= 8 then 1
             else 0)
  }

  function Nibble(bytes: seq<Byte>, digit: nat): (n: int)
    requires digit < 2 * |bytes|
    ensures 0 <= n < 16
  {
    if digit % 2 == 0 then bytes[digit / 2] / 16 else bytes[digit / 2] % 16
  }

  /** The canonical text, position by position. */
  function Text(bytes: seq<Byte>): (s: string)
    requires |bytes| == 16
    ensures |s| == LENGTH
  {
    seq(LENGTH, position requires 0 <= position < LENGTH => CharAt(bytes, position))
  }

  function CharAt(bytes: seq<Byte>, position: nat): char
    requires |bytes| == 16 && position < LENGTH
  {
    if IsDash(position) then '-' else HEX_TABLE[Nibble(bytes, DigitsBefore(position))]
  }

  predicate IsHex(c: char) { '0' <= c <= '9' || 'a' <= c <= 'f' || 'A' <= c <= 'F' }

  function HexValue(c: char): (v: int)
    requires IsHex(c)
    ensures 0 <= v < 16
  {
    if c <= '9' then c as int - '0' as int
    else if 'a' <= c then c as int - 'a' as int + 10
    else c as int - 'A' as int + 10
  }

  predicate WellFormed(s: string) {
    && |s| == LENGTH && s[8] == '-' && s[13] == '-' && s[18] == '-' && s[23] == '-'
    && forall digit :: 0 <= digit < 32 ==> IsHex(s[PositionOf(digit)])
  }

  /** What the text stands for. */
  function Value(s: string): (bytes: seq<Byte>)
    requires WellFormed(s)
    ensures |bytes| == 16
  {
    seq(16, i requires 0 <= i < 16 => ByteAt(s, i))
  }

  function ByteAt(s: string, i: nat): Byte
    requires WellFormed(s) && i < 16
  {
    16 * HexValue(s[PositionOf(2 * i)]) + HexValue(s[PositionOf(2 * i + 1)])
  }

  /** The 16 random bytes with version 4 and the RFC variant stamped in. */
  function Stamped(random: seq<Byte>): (value: seq<Byte>)
    requires |random| == 16
    ensures |value| == 16
  {
    random[6 := 0x40 + random[6] % 16][8 := 0x80 + random[8] % 64]
  }

  /** `generateMessageUUID` on the 16 bytes it reads. */
  method Generate(random: seq<Byte>) returns (text: string)
    requires |random| == 16
    ensures text == Text(Stamped(random))
  {
    var value := new Byte[16](i requires 0 <= i < 16 => random[i]);
    value[6] := value[6] % 16 + 0x40;
    value[8] := value[8] % 64 + 0x80;
    ghost var stamped := Stamped(random);
    assert value[..] == stamped;
    var encoded := new char[LENGTH];
    var source := 0;
    for destination := 0 to LENGTH
      invariant source == DigitsBefore(destination)
      invariant value[..] == stamped
      invariant forall p :: 0 <= p < destination ==> encoded[p] == Text(stamped)[p]
    {
      if IsDash(destination) {
        encoded[destination] := '-';
        continue;
      }
      var byteIndex := source / 2;
      assert value[byteIndex] == stamped[byteIndex];
      if source % 2 == 0 {
        encoded[destination] := HEX_TABLE[value[byteIndex] / 16];
      } else {
        encoded[destination] := HEX_TABLE[value[byteIndex] % 16];
      }
      source := source + 1;
    }
    text := encoded[..];
  }

  /** The digits of some bytes, as `hex.Encode` writes them. */
  function HexOf(bytes: seq<Byte>): string {
    if bytes == [] then [] else [HEX_TABLE[bytes[0] / 16], HEX_TABLE[bytes[0] % 16]] + HexOf(bytes[1..])
  }

  /** `UUID.String`: five runs of hex digits joined by dashes. */
  function Print(u: seq<Byte>): string
    requires |u| == 16
  {
    HexOf(u[0..4]) + "-" + HexOf(u[4..6]) + "-" + HexOf(u[6..8]) + "-" + HexOf(u[8..10]) + "-" + HexOf(u[10..16])
  }

  lemma {:induction false} HexOfDigit(bytes: seq<Byte>, digit: nat)
    requires digit < 2 * |bytes|
    ensures |HexOf(bytes)| == 2 * |bytes|
    ensures HexOf(bytes)[digit] == HEX_TABLE[Nibble(bytes, digit)]
  {
    if |bytes| > 1 {
      HexOfDigit(bytes[1..], if digit >= 2 then digit - 2 else 0);
    }
  }

  lemma {:induction false} HexOfLength(bytes: seq<Byte>)
    ensures |HexOf(bytes)| == 2 * |bytes|
  {
    if bytes != [] {
      HexOfLength(bytes[1..]);
    }
  }

  /** Five runs joined by dashes, one character at a time. */
  lemma JoinedAt(a: string, b: string, c: string, d: string, e: string, p: nat)
    requires |a| == 8 && |b| == 4 && |c| == 4 && |d| == 4 && |e| == 12 && p < LENGTH
    ensures |a + "-" + b + "-" + c + "-" + d + "-" + e| == LENGTH
    ensures (a + "-" + b + "-" + c + "-" + d + "-" + e)[p] ==
            if IsDash(p) then '-' else if p < 8 then a[p] else if p < 13 then b[p - 9] else if p < 18 then c[p - 14]
            else if p < 23 then d[p - 19] else e[p - 24]
  {
  }

  lemma RunAt(u: seq<Byte>, from: nat, to: nat, digit: nat)
    requires |u| == 16 && from <= to <= 16 && digit < 2 * (to - from)
    ensures |HexOf(u[from..to])| == 2 * (to - from)
    ensures HexOf(u[from..to])[digit] == HEX_TABLE[Nibble(u, 2 * from + digit)]
  {
    HexOfDigit(u[from..to], digit);
  }

  lemma PrintCharAt(u: seq<Byte>, p: nat)
    requires |u| == 16 && p < LENGTH
    ensures |Print(u)| == LENGTH && Print(u)[p] == CharAt(u, p)
  {
    HexOfLength(u[0..4]);
    HexOfLength(u[4..6]);
    HexOfLength(u[6..8]);
    HexOfLength(u[8..10]);
    HexOfLength(u[10..16]);
    JoinedAt(HexOf(u[0..4]), HexOf(u[4..6]), HexOf(u[6..8]), HexOf(u[8..10]), HexOf(u[10..16]), p);
    if p < 8 { RunAt(u, 0, 4, p); }
    else if 8 < p < 13 { RunAt(u, 4, 6, p - 9); }
    else if 13 < p < 18 { RunAt(u, 6, 8, p - 14); }
    else if 18 < p < 23 { RunAt(u, 8, 10, p - 19); }
    else if 23 < p { RunAt(u, 10, 16, p - 24); }
  }

  /** The printer and the generator's loop write the same text. */
  lemma PrintIsText(u: seq<Byte>)
    requires |u| == 16
    ensures Print(u) == Text(u)
  {
    PrintCharAt(u, 0);
    forall p: nat | p < LENGTH ensures Print(u)[p] == CharAt(u, p) {
      PrintCharAt(u, p);
    }
  }

  /** `uuid.Parse`: drop the dashes, then decode the 32 digits pair by pair. */
  method Parse(input: string) returns (parsed: Option<seq<Byte>>)
    ensures parsed.Some? <==> WellFormed(input)
    ensures parsed.Some? ==> parsed.value == Value(input)
  {
    if |input| != LENGTH {
      return None;
    }
    if input[8] != '-' || input[13] != '-' || input[18] != '-' || input[23] != '-' {
      return None;
    }
    var compact := new char[32];
    var offset := 0;
    for i := 0 to LENGTH
      invariant 0 <= offset <= DigitsBefore(i)
      invariant offset == DigitsBefore(i) ==> forall d :: 0 <= d < offset ==> compact[d] == input[PositionOf(d)]
      invariant offset < DigitsBefore(i) ==> exists d :: 0 <= d < DigitsBefore(i) && input[PositionOf(d)] == '-'
    {
      if input[i] == '-' {
        if !IsDash(i) && offset == DigitsBefore(i) {
          assert PositionOf(offset) == i;
        }
        continue;
      }
      assert PositionOf(DigitsBefore(i)) == i;
      compact[offset] := input[i];
      offset := offset + 1;
    }
    if offset != 32 {
      return None;
    }
    var value := [];
    for i := 0 to 16
      invariant |value| == i
      invariant forall d :: 0 <= d < 2 * i ==> IsHex(compact[d])
      invariant forall j :: 0 <= j < i ==> value[j] == 16 * HexValue(compact[2 * j]) + HexValue(compact[2 * j + 1])
    {
      assert compact[2 * i] == input[PositionOf(2 * i)] && compact[2 * i + 1] == input[PositionOf(2 * i + 1)];
      if !IsHex(compact[2 * i]) || !IsHex(compact[2 * i + 1]) {
        return None;
      }
      value := value + [16 * HexValue(compact[2 * i]) + HexValue(compact[2 * i + 1])];
    }
    assert WellFormed(input);
    return Some(value);
  }

  lemma DigitRoundTrip(n: int)
    requires 0 <= n < 16
    ensures IsHex(HEX_TABLE[n]) && HexValue(HEX_TABLE[n]) == n
  {
  }

  lemma DigitOfText(u: seq<Byte>, digit: nat)
    requires |u| == 16 && digit < 32
    ensures IsHex(Text(u)[PositionOf(digit)]) && HexValue(Text(u)[PositionOf(digit)]) == Nibble(u, digit)
  {
    assert DigitsBefore(PositionOf(digit)) == digit && !IsDash(PositionOf(digit));
    assert Text(u)[PositionOf(digit)] == CharAt(u, PositionOf(digit));
    DigitRoundTrip(Nibble(u, digit));
  }

  lemma TextIsWellFormed(u: seq<Byte>)
    requires |u| == 16
    ensures WellFormed(Text(u))
  {
    forall digit: nat | digit < 32 ensures IsHex(Text(u)[PositionOf(digit)]) {
      DigitOfText(u, digit);
    }
  }

  lemma ByteOfText(u: seq<Byte>, i: nat)
    requires |u| == 16 && i < 16 && WellFormed(Text(u))
    ensures ByteAt(Text(u), i) == u[i]
  {
    DigitOfText(u, 2 * i);
    DigitOfText(u, 2 * i + 1);
    assert (2 * i) / 2 == i && (2 * i + 1) / 2 == i;
  }

  /** Parsing what was printed gives the bytes back. */
  lemma TextRoundTrip(u: seq<Byte>)
    requires |u| == 16
    ensures WellFormed(Text(u)) && Value(Text(u)) == u
  {
    TextIsWellFormed(u);
    forall i: nat | i < 16 ensures Value(Text(u))[i] == u[i] {
      ByteOfText(u, i);
    }
  }

  const NIL: seq<Byte> := [0, 0, 0, 0, 0, 0, 0, 0, 0, 0, 0, 0, 0, 0, 0, 0]

  /** `validCanonicalUUID`: parses, is not nil, and prints back as itself. */
  predicate Canonical(s: string) {
    WellFormed(s) && Value(s) != NIL && Print(Value(s)) == s
  }

  /** Exactly the texts of the non-nil values are canonical. */
  lemma CanonicalExactly(s: string)
    ensures Canonical(s) <==> exists u: seq<Byte> :: |u| == 16 && u != NIL && s == Text(u)
  {
    if Canonical(s) {
      PrintIsText(Value(s));
    }
    forall u: seq<Byte> | |u| == 16 && u != NIL && s == Text(u) ensures Canonical(s) {
      TextRoundTrip(u);
      PrintIsText(u);
    }
  }

  /** Version and variant are in place and every other bit is the random one. */
  lemma StampedBits(random: seq<Byte>)
    requires |random| == 16
    ensures Stamped(random)[6] / 16 == 4 && Stamped(random)[6] % 16 == random[6] % 16
    ensures Stamped(random)[8] / 64 == 2 && Stamped(random)[8] % 64 == random[8] % 64
    ensures forall i :: 0 <= i < 16 && i != 6 && i != 8 ==> Stamped(random)[i] == random[i]
  {
  }

  /** A generated id is canonical and reads back as its stamped bytes. */
  lemma GeneratedIsCanonical(random: seq<Byte>)
    requires |random| == 16
    ensures Canonical(Text(Stamped(random)))
    ensures Value(Text(Stamped(random))) == Stamped(random)
  {
    var u := Stamped(random);
    StampedBits(random);
    assert NIL[6] == 0;
    TextRoundTrip(u);
    PrintIsText(u);
  }
}
