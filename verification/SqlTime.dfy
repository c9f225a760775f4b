/**
 Times as the tables hold them: text in the manner of section 5.6 of RFC 3339, with the
 fraction's trailing zeros left out, compared byte by byte.
 */
module SqlTime {
  import opened Text

  /** A time in UTC, down to the nanosecond. */
  datatype Stamp = Stamp(year: nat, month: nat, day: nat, hour: nat, minute: nat, second: nat, nano: nat)

  /** The fields fit their width. */
  predicate Valid(t: Stamp) {
    && 1 <= t.year < 10000 && t.month < 100 && t.day < 100 && t.hour < 100 && t.minute < 100 && t.second < 100
    && t.nano < 1_000_000_000
  }

  const ZERO := Stamp(1, 1, 1, 0, 0, 0, 0)

  // ----- Comparing texts

  /** Byte by byte, a proper prefix first. */
  predicate Less(s: string, t: string) {
    t != [] && (s == [] || s[0] < t[0] || (s[0] == t[0] && Less(s[1..], t[1..])))
  }

  lemma {:induction false} LessOfConcat(p: string, q: string, s: string, t: string)
    requires |p| == |q|
    ensures Less(p + s, q + t) <==> Less(p, q) || (p == q && Less(s, t))
  {
    if p == [] {
      assert p + s == s && q + t == t;
    } else {
      assert (p + s)[1..] == p[1..] + s && (q + t)[1..] == q[1..] + t;
      LessOfConcat(p[1..], q[1..], s, t);
      assert p == [p[0]] + p[1..] && q == [q[0]] + q[1..];
    }
  }

  lemma {:induction false} LessIsStrict(s: string)
    ensures !Less(s, s)
  {
    if s != [] {
      LessIsStrict(s[1..]);
    }
  }

  // ----- Numbers of a fixed width

  function Ten(width: nat): nat { if width == 0 then 1 else 10 * Ten(width - 1) }

  /** The last digits of a number, with leading zeros. */
  function Padded(n: nat, width: nat): (s: string)
    ensures |s| == width && Digits(s)
  {
    if width == 0 then [] else Padded(n / 10, width - 1) + [Digit(n % 10)]
  }

  lemma {:induction false} PaddedIsOrdered(a: nat, b: nat, width: nat)
    requires a < Ten(width) && b < Ten(width)
    ensures (Less(Padded(a, width), Padded(b, width)) <==> a < b) && (Padded(a, width) == Padded(b, width) <==> a == b)
  {
    if width > 0 {
      PaddedIsOrdered(a / 10, b / 10, width - 1);
      var p, q := Padded(a / 10, width - 1), Padded(b / 10, width - 1);
      LessOfConcat(p, q, [Digit(a % 10)], [Digit(b % 10)]);
      LastOfConcat(p, Digit(a % 10), q, Digit(b % 10));
      assert Less([Digit(a % 10)], [Digit(b % 10)]) <==> a % 10 < b % 10;
    }
  }

  lemma LastOfConcat(p: string, c: char, q: string, d: char)
    ensures p + [c] == q + [d] <==> p == q && c == d
  {
    if p + [c] == q + [d] {
      assert (p + [c])[..|p|] == p && (q + [d])[..|q|] == q;
      assert (p + [c])[|p|] == c && (q + [d])[|q|] == d;
    }
  }

  // ----- Times before times

  /** What precedes the fraction, as one number. */
  function Seconds(t: Stamp): nat {
    ((((t.year * 100 + t.month) * 100 + t.day) * 100 + t.hour) * 100 + t.minute) * 100 + t.second
  }

  predicate Before(a: Stamp, b: Stamp) { Seconds(a) < Seconds(b) || (Seconds(a) == Seconds(b) && a.nano < b.nano) }

  // ----- Fractions

  function Trimmed(s: string): (r: string)
    ensures |r| <= |s|
  {
    if s != [] && s[|s| - 1] == '0' then Trimmed(s[..|s| - 1]) else s
  }

  /** The digits of the fraction that are printed. */
  function Fraction(nano: nat): string { Trimmed(Padded(nano, 9)) }

  function Printed(fraction: string): string { (if fraction == [] then [] else ['.'] + fraction) + ['Z'] }

  lemma {:induction false} TrimmedIsPrefix(s: string)
    ensures Trimmed(s) <= s && (forall i :: |Trimmed(s)| <= i < |s| ==> s[i] == '0')
    ensures Trimmed(s) != [] ==> Trimmed(s)[|Trimmed(s)| - 1] != '0'
  {
    if s != [] && s[|s| - 1] == '0' {
      TrimmedIsPrefix(s[..|s| - 1]);
    }
  }

  function Zeros(n: nat): string { seq(n, _ => '0') }

  /** Followed by zeros, a proper prefix that ends here is smaller; nothing else changes. */
  lemma {:induction false} ZerosDoNotMatter(s: string, t: string, m: nat, n: nat)
    requires |s| + m == |t| + n && Digits(s) && Digits(t)
    requires s != [] ==> s[|s| - 1] != '0'
    requires t != [] ==> t[|t| - 1] != '0'
    ensures Less(s + Zeros(m), t + Zeros(n)) <==> Less(s, t)
  {
    if s == [] {
      assert s + Zeros(m) == Zeros(m);
      ZerosAreLeast(t, n, m);
    } else if t == [] {
      assert t + Zeros(n) == Zeros(n);
      ZerosAreLeast(s, m, n);
    } else {
      assert (s + Zeros(m))[1..] == s[1..] + Zeros(m) && (t + Zeros(n))[1..] == t[1..] + Zeros(n);
      ZerosDoNotMatter(s[1..], t[1..], m, n);
    }
  }

  lemma {:induction false} ZerosAreLeast(s: string, m: nat, n: nat)
    requires n == |s| + m && Digits(s) && (s != [] ==> s[|s| - 1] != '0')
    ensures (Less(Zeros(n), s + Zeros(m)) <==> s != []) && !Less(s + Zeros(m), Zeros(n))
    decreases |s|
  {
    if s == [] {
      assert s + Zeros(m) == Zeros(n);
      LessIsStrict(Zeros(n));
    } else {
      assert (s + Zeros(m))[1..] == s[1..] + Zeros(m) && Zeros(n)[1..] == Zeros(n - 1);
      ZerosAreLeast(s[1..], m, n - 1);
    }
  }

  lemma TrimmedAgain(s: string)
    ensures s == Trimmed(s) + Zeros(|s| - |Trimmed(s)|)
  {
    TrimmedIsPrefix(s);
  }

  lemma TrimmedEnds(s: string)
    requires Digits(s)
    ensures Digits(Trimmed(s)) && (Trimmed(s) != [] ==> Trimmed(s)[|Trimmed(s)| - 1] != '0')
  {
    TrimmedIsPrefix(s);
  }

  lemma TrimmedIsOrdered(s: string, t: string)
    requires |s| == |t| && Digits(s) && Digits(t)
    ensures (Less(Trimmed(s), Trimmed(t)) <==> Less(s, t)) && (Trimmed(s) == Trimmed(t) <==> s == t)
  {
    TrimmedAgain(s);
    TrimmedAgain(t);
    TrimmedEnds(s);
    TrimmedEnds(t);
    ZerosDoNotMatter(Trimmed(s), Trimmed(t), |s| - |Trimmed(s)|, |t| - |Trimmed(t)|);
  }

  /** Of two fractions the one with the smaller text, so read, is the smaller one. */
  lemma FractionIsOrdered(a: nat, b: nat)
    requires a < 1_000_000_000 && b < 1_000_000_000
    ensures (Less(Fraction(a), Fraction(b)) <==> a < b) && (Fraction(a) == Fraction(b) <==> a == b)
  {
    NineDigits();
    PaddedIsOrdered(a, b, 9);
    TrimmedIsOrdered(Padded(a, 9), Padded(b, 9));
  }

  lemma NineDigits()
    ensures Ten(9) == 1_000_000_000 && Ten(4) == 10000 && Ten(2) == 100
  {
    assert Ten(3) == 1000 && Ten(6) == 1_000_000;
  }

  /** But the `Z` after them comes after every digit and after the point. */
  lemma {:induction false} EndsAreOrdered(s: string, t: string)
    requires Digits(s) && Digits(t) && s != t
    ensures Less(s + ['Z'], t + ['Z']) <==> (Less(s, t) <==> !(s < t || t < s))
  {
    if s == [] || t == [] {
      assert (s + ['Z'])[0] != (t + ['Z'])[0];
    } else if s[0] == t[0] {
      assert (s + ['Z'])[1..] == s[1..] + ['Z'] && (t + ['Z'])[1..] == t[1..] + ['Z'];
      assert s == [s[0]] + s[1..] && t == [t[0]] + t[1..];
      EndsAreOrdered(s[1..], t[1..]);
      PrefixOfTail(s, t);
      PrefixOfTail(t, s);
    }
  }

  lemma PrefixOfTail(s: string, t: string)
    requires s != [] && t != [] && s[0] == t[0]
    ensures s < t <==> s[1..] < t[1..]
  {
    assert s == [s[0]] + s[1..] && t == [t[0]] + t[1..];
  }

  lemma PrintedIsOrdered(s: string, t: string)
    requires Digits(s) && Digits(t) && s != t
    ensures Less(Printed(s), Printed(t)) <==> (Less(s, t) <==> !(s < t || t < s))
  {
    if s != [] && t != [] {
      assert Printed(s) == ['.'] + (s + ['Z']) && Printed(t) == ['.'] + (t + ['Z']);
      LessOfConcat(['.'], ['.'], s + ['Z'], t + ['Z']);
      LessIsStrict(['.']);
      EndsAreOrdered(s, t);
    }
  }

  // ----- The text

  /** Up to the seconds: fixed widths, with the separators in between. */
  function Front(t: Stamp): string {
    Padded(t.year, 4) + (['-'] + (Padded(t.month, 2) + (['-'] + (Padded(t.day, 2) + (['T'] + Clock(t))))))
  }

  function Clock(t: Stamp): string {
    Padded(t.hour, 2) + ([':'] + (Padded(t.minute, 2) + ([':'] + Padded(t.second, 2))))
  }

  /** `formatTime`: the zero time is the empty text. */
  function Formatted(t: Stamp): string { if t == ZERO then "" else Front(t) + Printed(Fraction(t.nano)) }

  /** A field first, then what follows its separator. */
  lemma FieldFirst(a: nat, b: nat, width: nat, separator: char, s: string, t: string)
    requires a < Ten(width) && b < Ten(width)
    ensures Less(Padded(a, width) + ([separator] + s), Padded(b, width) + ([separator] + t)) <==>
            a < b || (a == b && Less(s, t))
    ensures Padded(a, width) + ([separator] + s) == Padded(b, width) + ([separator] + t) <==> a == b && s == t
  {
    PaddedIsOrdered(a, b, width);
    var p, q := Padded(a, width), Padded(b, width);
    LessOfConcat(p, q, [separator] + s, [separator] + t);
    LessOfConcat([separator], [separator], s, t);
    LessIsStrict([separator]);
    if p + ([separator] + s) == q + ([separator] + t) {
      assert (p + ([separator] + s))[..width] == p && (q + ([separator] + t))[..width] == q;
      assert (p + ([separator] + s))[width + 1..] == s && (q + ([separator] + t))[width + 1..] == t;
    }
  }

  function ClockOf(t: Stamp): nat { (t.hour * 100 + t.minute) * 100 + t.second }

  lemma ClockIsOrdered(a: Stamp, b: Stamp)
    requires Valid(a) && Valid(b)
    ensures Less(Clock(a), Clock(b)) <==> ClockOf(a) < ClockOf(b)
    ensures Clock(a) == Clock(b) <==> ClockOf(a) == ClockOf(b)
  {
    NineDigits();
    PaddedIsOrdered(a.second, b.second, 2);
    FieldFirst(a.minute, b.minute, 2, ':', Padded(a.second, 2), Padded(b.second, 2));
    FieldFirst(a.hour, b.hour, 2, ':', Padded(a.minute, 2) + ([':'] + Padded(a.second, 2)),
               Padded(b.minute, 2) + ([':'] + Padded(b.second, 2)));
  }

  lemma FrontIsOrdered(a: Stamp, b: Stamp)
    requires Valid(a) && Valid(b)
    ensures |Front(a)| == |Front(b)|
    ensures Less(Front(a), Front(b)) <==> Seconds(a) < Seconds(b)
    ensures Front(a) == Front(b) <==> Seconds(a) == Seconds(b)
  {
    NineDigits();
    ClockIsOrdered(a, b);
    var dayA, dayB := Padded(a.day, 2) + (['T'] + Clock(a)), Padded(b.day, 2) + (['T'] + Clock(b));
    FieldFirst(a.day, b.day, 2, 'T', Clock(a), Clock(b));
    FieldFirst(a.month, b.month, 2, '-', dayA, dayB);
    FieldFirst(a.year, b.year, 4, '-', Padded(a.month, 2) + (['-'] + dayA), Padded(b.month, 2) + (['-'] + dayB));
    SecondsByFields(a, b);
  }

  lemma SecondsByFields(a: Stamp, b: Stamp)
    requires Valid(a) && Valid(b)
    ensures Seconds(a) == (((a.year * 100 + a.month) * 100 + a.day) * 1000000) + ClockOf(a)
    ensures Seconds(b) == (((b.year * 100 + b.month) * 100 + b.day) * 1000000) + ClockOf(b)
    ensures ClockOf(a) < 1000000 && ClockOf(b) < 1000000
  {
  }

  /** In the same second, and the printed fraction of one goes on where that of the other ends. */
  predicate Continues(a: Stamp, b: Stamp) {
    && a != ZERO && b != ZERO && Seconds(a) == Seconds(b)
    && (Fraction(a.nano) < Fraction(b.nano) || Fraction(b.nano) < Fraction(a.nano))
  }

  lemma FractionsAreOrdered(a: Stamp, b: Stamp)
    requires Valid(a) && Valid(b) && a.nano != b.nano
    ensures var s, t := Fraction(a.nano), Fraction(b.nano);
            Less(Printed(s), Printed(t)) <==> (a.nano < b.nano <==> !(s < t || t < s))
  {
    FractionIsOrdered(a.nano, b.nano);
    TrimmedIsPrefix(Padded(a.nano, 9));
    TrimmedIsPrefix(Padded(b.nano, 9));
    PrintedIsOrdered(Fraction(a.nano), Fraction(b.nano));
  }

  /** A day of the calendar. */
  predicate Dated(t: Stamp) { Valid(t) && t.month >= 1 && t.day >= 1 }

  lemma ZeroIsFirst(t: Stamp)
    requires Dated(t) && t != ZERO
    ensures Before(ZERO, t) && !Before(t, ZERO)
  {
  }

  /**
   The text of one of two different times comes first exactly when the time does, unless one printed
   fraction continues the other: then it comes first exactly when the time does not.
   */
  lemma TextOrder(a: Stamp, b: Stamp)
    requires Dated(a) && Dated(b) && a != b
    ensures Less(Formatted(a), Formatted(b)) <==> (Before(a, b) <==> !Continues(a, b))
  {
    if a == ZERO {
      ZeroIsFirst(b);
    } else if b == ZERO {
      ZeroIsFirst(a);
    } else {
      FrontIsOrdered(a, b);
      LessOfConcat(Front(a), Front(b), Printed(Fraction(a.nano)), Printed(Fraction(b.nano)));
      if Seconds(a) == Seconds(b) {
        SecondsDetermine(a, b);
        FractionsAreOrdered(a, b);
      }
    }
  }

  lemma LastTwoDigits(x: nat, u: nat, y: nat, v: nat)
    requires u < 100 && v < 100 && x * 100 + u == y * 100 + v
    ensures x == y && u == v
  {
  }

  /** The fields of the second are those of its number. */
  lemma SecondsDetermine(a: Stamp, b: Stamp)
    requires Valid(a) && Valid(b) && Seconds(a) == Seconds(b)
    ensures a == b.(nano := a.nano)
  {
    var monthA, monthB := a.year * 100 + a.month, b.year * 100 + b.month;
    var dayA, dayB := monthA * 100 + a.day, monthB * 100 + b.day;
    var hourA, hourB := dayA * 100 + a.hour, dayB * 100 + b.hour;
    LastTwoDigits(hourA * 100 + a.minute, a.second, hourB * 100 + b.minute, b.second);
    LastTwoDigits(hourA, a.minute, hourB, b.minute);
    LastTwoDigits(dayA, a.hour, dayB, b.hour);
    LastTwoDigits(monthA, a.day, monthB, b.day);
    LastTwoDigits(a.year, a.month, b.year, b.month);
  }

  /** So whole seconds, and times in different seconds, are always compared right. */
  lemma WholeSecondsAreOrdered(a: Stamp, b: Stamp)
    requires Dated(a) && Dated(b)
    requires Seconds(a) != Seconds(b) || (a.nano == 0 && b.nano == 0)
    ensures Less(Formatted(a), Formatted(b)) <==> Before(a, b)
  {
    if a == b {
      LessIsStrict(Formatted(a));
    } else {
      TextOrder(a, b);
    }
  }

  /** A time on the full second is taken to be after every other of that second. */
  lemma FullSecondComesLast(a: Stamp, b: Stamp)
    requires Dated(a) && Dated(b) && a != ZERO && Seconds(a) == Seconds(b) && a.nano == 0 && b.nano > 0
    ensures Before(a, b) && Less(Formatted(b), Formatted(a))
  {
    FractionIsOrdered(0, b.nano);
    TrimmedIsPrefix(Padded(b.nano, 9));
    NoughtIsNothing();
    TextOrder(b, a);
  }

  lemma NoughtIsNothing()
    ensures Fraction(0) == []
  {
    NineDigits();
    PaddedNought(9);
    TrimmedNought(Padded(0, 9));
  }

  lemma {:induction false} PaddedNought(width: nat)
    ensures forall i :: 0 <= i < width ==> Padded(0, width)[i] == '0'
  {
    if width > 0 {
      PaddedNought(width - 1);
    }
  }

  lemma {:induction false} TrimmedNought(s: string)
    requires forall i :: 0 <= i < |s| ==> s[i] == '0'
    ensures Trimmed(s) == []
  {
    if s != [] {
      TrimmedNought(s[..|s| - 1]);
    }
  }
}
