/**
 File system paths as the setup normalises them: trimmed, made absolute, cleaned.
 */
module Paths {
  import opened Wrappers
  import opened Text
  import opened Quoting

  const SLASH := Rune('/')
  const DOT: Value := [Rune('.')]
  const DOT_DOT: Value := [Rune('.'), Rune('.')]

  // ----- Trimming

  predicate IsBlank(u: Unit) { u.Rune? && IsSpace(u.c) }

  predicate Blank(v: Value) { forall i :: 0 <= i < |v| ==> IsBlank(v[i]) }

  function TrimStart(v: Value): (r: Value)
    ensures |r| <= |v| && (r != [] ==> !IsBlank(r[0])) && (v != [] && !IsBlank(v[0]) ==> r == v)
    ensures r == [] <==> Blank(v)
  {
    if v != [] && IsBlank(v[0]) then TrimStart(v[1..]) else v
  }

  function TrimEnd(v: Value): (r: Value)
    ensures r <= v && (r != [] ==> !IsBlank(r[|r| - 1])) && (r == v <==> v == [] || !IsBlank(v[|v| - 1]))
    ensures r == [] <==> Blank(v)
  {
    if v != [] && IsBlank(v[|v| - 1]) then TrimEnd(v[..|v| - 1]) else v
  }

  function TrimSpace(v: Value): Value { TrimEnd(TrimStart(v)) }

  // ----- Cleaning

  predicate Rooted(p: Value) { p != [] && p[0] == SLASH }

  function Enter(stack: seq<Value>, part: Value): seq<Value> {
    if part == [] || part == DOT then stack
    else if part == DOT_DOT then (if stack == [] then [] else stack[..|stack| - 1])
    else stack + [part]
  }

  function Resolve(stack: seq<Value>, parts: seq<Value>): seq<Value>
    decreases |parts|
  {
    if parts == [] then stack else Resolve(Enter(stack, parts[0]), parts[1..])
  }

  function Printed(stack: seq<Value>): Value { [SLASH] + (if stack == [] then [] else Join(stack, SLASH)) }

  /** `filepath.Clean` of a path that starts at the root. */
  function CleanPath(p: Value): Value
    requires Rooted(p)
  {
    Printed(Resolve([], Split(p, SLASH)))
  }

  predicate Proper(part: Value) { part != [] && part != DOT && part != DOT_DOT && Free(part, SLASH) }

  predicate AllProper(parts: seq<Value>) { forall i :: 0 <= i < |parts| ==> Proper(parts[i]) }

  lemma {:induction false} ResolveIsProper(stack: seq<Value>, parts: seq<Value>)
    requires AllProper(stack) && AllFree(parts, SLASH)
    ensures AllProper(Resolve(stack, parts))
    decreases |parts|
  {
    if parts != [] {
      ResolveIsProper(Enter(stack, parts[0]), parts[1..]);
    }
  }

  lemma {:induction false} ResolveOfProper(stack: seq<Value>, parts: seq<Value>)
    requires AllProper(parts)
    ensures Resolve(stack, parts) == stack + parts
    decreases |parts|
  {
    if parts != [] {
      ResolveOfProper(stack + [parts[0]], parts[1..]);
      assert stack + [parts[0]] + parts[1..] == stack + parts;
    }
  }

  lemma SplitOfPrinted(stack: seq<Value>)
    requires AllProper(stack)
    ensures Resolve([], Split(Printed(stack), SLASH)) == stack
  {
    var rest: Value := if stack == [] then [] else Join(stack, SLASH);
    assert [] + [SLASH] + rest == Printed(stack);
    SplitFirst([], SLASH, rest);
    var parts := Split(rest, SLASH);
    assert ([[]] + parts)[1..] == parts;
    if stack == [] {
      assert |parts| == 1 && parts[0] == [] && parts[1..] == [];
      assert Resolve([], parts) == Resolve(Enter([], parts[0]), parts[1..]) == [];
    } else {
      SplitOfJoin(stack, SLASH);
      ResolveOfProper([], stack);
    }
  }

  /** Cleaning a clean path changes nothing. */
  lemma CleanIsIdempotent(p: Value)
    requires Rooted(p)
    ensures Rooted(CleanPath(p)) && CleanPath(CleanPath(p)) == CleanPath(p)
  {
    SplitIsFree(p, SLASH, SLASH);
    ResolveIsProper([], Split(p, SLASH));
    SplitOfPrinted(Resolve([], Split(p, SLASH)));
  }

  // ----- What cleaning means

  lemma {:induction false} ResolveOfConcat(stack: seq<Value>, p: seq<Value>, q: seq<Value>)
    ensures Resolve(stack, p + q) == Resolve(Resolve(stack, p), q)
    decreases |p|
  {
    if p == [] {
      assert p + q == q;
    } else {
      ResolveOfConcat(Enter(stack, p[0]), p[1..], q);
      assert (p + q)[1..] == p[1..] + q;
    }
  }

  /** Empty, or a path from the root: what may stand before a slash. */
  predicate Leads(a: Value) { a == [] || Rooted(a) }

  function Stack(a: Value): seq<Value> { Resolve([], Split(a, SLASH)) }

  lemma CleanOfTwo(a: Value, b: Value)
    requires Leads(a)
    ensures Rooted(a + [SLASH] + b)
    ensures CleanPath(a + [SLASH] + b) == Printed(Resolve(Stack(a), Split(b, SLASH)))
  {
    SplitOfTwo(a, SLASH, b);
    ResolveOfConcat([], Split(a, SLASH), Split(b, SLASH));
  }

  /** What leaves every stack as it was can be cut out of the middle of a path. */
  lemma CutOut(a: Value, middle: Value, b: Value)
    requires Leads(a) && Resolve(Stack(a), Split(middle, SLASH)) == Stack(a)
    ensures CleanPath(a + [SLASH] + (middle + [SLASH] + b)) == CleanPath(a + [SLASH] + b)
  {
    SplitOfTwo(middle, SLASH, b);
    CleanOfTwo(a, b);
    CleanOfTwo(a, middle + [SLASH] + b);
    ResolveOfConcat(Stack(a), Split(middle, SLASH), Split(b, SLASH));
  }

  lemma ResolveOne(stack: seq<Value>, part: Value)
    ensures Resolve(stack, [part]) == Enter(stack, part)
  {
    assert [part][1..] == [];
    assert Resolve(Enter(stack, part), []) == Enter(stack, part);
  }

  /** An empty part and a dot say nothing. */
  lemma SilentPartsVanish(a: Value, b: Value)
    requires Leads(a)
    ensures CleanPath(a + [SLASH] + ([] + [SLASH] + b)) == CleanPath(a + [SLASH] + b)
    ensures CleanPath(a + [SLASH] + ([Rune('.')] + [SLASH] + b)) == CleanPath(a + [SLASH] + b)
  {
    SplitLast<Unit>([], SLASH);
    SplitLast([Rune('.')], SLASH);
    ResolveOne(Stack(a), []);
    ResolveOne(Stack(a), [Rune('.')]);
    CutOut(a, [], b);
    CutOut(a, [Rune('.')], b);
  }

  /** Two dots take back the part before them, and above the root there is nothing to take back. */
  lemma DotsTakeBack(a: Value, part: Value, b: Value)
    requires Leads(a) && Proper(part)
    ensures CleanPath(a + [SLASH] + (part + [SLASH] + [Rune('.'), Rune('.')] + [SLASH] + b))
            == CleanPath(a + [SLASH] + b)
    ensures CleanPath([] + [SLASH] + ([Rune('.'), Rune('.')] + [SLASH] + b)) == CleanPath([] + [SLASH] + b)
  {
    var dots: Value := [Rune('.'), Rune('.')];
    SplitLast(part, SLASH);
    SplitLast(dots, SLASH);
    SplitOfTwo(part, SLASH, dots);
    ResolveOfConcat(Stack(a), [part], [dots]);
    ResolveOne(Stack(a), part);
    ResolveOne(Stack(a) + [part], dots);
    assert (Stack(a) + [part])[..|Stack(a)|] == Stack(a);
    CutOut(a, part + [SLASH] + dots, b);
    SplitLast<Unit>([], SLASH);
    ResolveOne([], []);
    ResolveOne([], dots);
    CutOut([], dots, b);
  }

  /** And a path of proper parts is clean already. */
  lemma ProperIsClean(parts: seq<Value>)
    requires AllProper(parts)
    ensures CleanPath(Printed(parts)) == Printed(parts)
  {
    SplitOfPrinted(parts);
  }

  // ----- Cleaning does not lengthen

  function Weight(parts: seq<Value>): nat {
    if parts == [] then 0 else Weight(parts[..|parts| - 1]) + |parts[|parts| - 1]| + 1
  }

  lemma {:induction false} WeightFirst(parts: seq<Value>)
    requires parts != []
    ensures Weight(parts) == |parts[0]| + 1 + Weight(parts[1..])
  {
    if |parts| > 1 {
      var front := parts[..|parts| - 1];
      WeightFirst(front);
      assert parts[1..][..|parts| - 2] == front[1..];
    }
  }

  lemma {:induction false} WeightOfSplit(s: Value)
    ensures Weight(Split(s, SLASH)) == |s| + 1
    decreases |s|
  {
    var i := IndexOf(s, SLASH);
    WeightFirst(Split(s, SLASH));
    if i < |s| {
      WeightOfSplit(s[i + 1..]);
      assert Split(s, SLASH)[1..] == Split(s[i + 1..], SLASH);
    } else {
      assert Split(s, SLASH)[1..] == [];
    }
  }

  lemma {:induction false} WeightOfJoin(parts: seq<Value>)
    requires parts != []
    ensures |Join(parts, SLASH)| + 1 == Weight(parts)
  {
    WeightFirst(parts);
    if |parts| > 1 {
      WeightOfJoin(parts[1..]);
    }
  }

  lemma {:induction false} WeightOfResolve(stack: seq<Value>, parts: seq<Value>)
    ensures Weight(Resolve(stack, parts)) <= Weight(stack) + Weight(parts)
    decreases |parts|
  {
    if parts != [] {
      var next := Enter(stack, parts[0]);
      WeightOfResolve(next, parts[1..]);
      WeightFirst(parts);
      if next == stack + [parts[0]] {
        assert next[..|stack|] == stack;
      }
    }
  }

  lemma CleanIsNotLonger(p: Value)
    requires Rooted(p)
    ensures |CleanPath(p)| <= |p|
  {
    var rest := p[1..];
    assert [] + [SLASH] + rest == p;
    SplitFirst([], SLASH, rest);
    var parts := Split(rest, SLASH);
    assert ([[]] + parts)[1..] == parts;
    WeightOfSplit(rest);
    WeightOfResolve([], parts);
    if Resolve([], parts) != [] {
      WeightOfJoin(Resolve([], parts));
    }
  }

  // ----- Cleaning brings nothing new

  lemma {:induction false} ResolveIsFree(stack: seq<Value>, parts: seq<Value>, u: Unit)
    requires AllFree(stack, u) && AllFree(parts, u)
    ensures AllFree(Resolve(stack, parts), u)
    decreases |parts|
  {
    if parts != [] {
      ResolveIsFree(Enter(stack, parts[0]), parts[1..], u);
    }
  }

  lemma CleanIsFree(p: Value, u: Unit)
    requires Rooted(p) && Free(p, u)
    ensures Free(CleanPath(p), u)
  {
    assert p[0] == SLASH;
    SplitIsFree(p, SLASH, u);
    ResolveIsFree([], Split(p, SLASH), u);
    var stack := Resolve([], Split(p, SLASH));
    if stack != [] {
      JoinIsFree(stack, SLASH, u);
    }
  }

  // ----- Normalising

  function Absolute(cwd: Value, p: Value): Value
    requires Rooted(cwd)
    ensures Rooted(Absolute(cwd, p))
  {
    CleanPath(if Rooted(p) then p else cwd + [SLASH] + p)
  }

  function Normalized(cwd: Value, path: Value): Option<Value>
    requires Rooted(cwd)
  {
    var trimmed := TrimSpace(path);
    if trimmed == [] || !Unbroken(trimmed) then None else Some(CleanPath(Absolute(cwd, trimmed)))
  }

  /** Nothing in the path, nor in the working directory where it matters, is broken. */
  lemma NormalizedIsUnbroken(cwd: Value, path: Value)
    requires Rooted(cwd) && Normalized(cwd, path).Some? && (Rooted(TrimSpace(path)) || Unbroken(cwd))
    ensures Unbroken(Normalized(cwd, path).value)
  {
    var p := TrimSpace(path);
    var from := if Rooted(p) then p else cwd + [SLASH] + p;
    forall u | u == Rune('\0') || u == Rune('\r') || u == Rune('\n') ensures Free(CleanPath(CleanPath(from)), u) {
      assert Free(from, u);
      CleanIsFree(from, u);
      CleanIsFree(CleanPath(from), u);
    }
  }

  /** A normalised path is absolute and not blank. */
  lemma NormalizedIsRooted(cwd: Value, path: Value)
    requires Rooted(cwd) && Normalized(cwd, path).Some?
    ensures Rooted(Normalized(cwd, path).value) && !Blank(Normalized(cwd, path).value)
  {
    assert !IsBlank(Normalized(cwd, path).value[0]);
  }

  predicate EndsBlank(v: Value) { v != [] && IsBlank(v[|v| - 1]) }

  lemma {:induction false} JoinEndsAlike(parts: seq<Value>)
    requires |parts| > 0 && AllProper(parts)
    ensures Join(parts, SLASH) != [] && (EndsBlank(Join(parts, SLASH)) <==> EndsBlank(parts[|parts| - 1]))
  {
    if |parts| > 1 {
      JoinEndsAlike(parts[1..]);
    }
  }

  lemma PrintedEndsAlike(parts: seq<Value>)
    requires AllProper(parts)
    ensures EndsBlank(Printed(parts)) <==> parts != [] && EndsBlank(parts[|parts| - 1])
  {
    if parts != [] {
      JoinEndsAlike(parts);
    }
  }

  /** The parts of a path that cleaning keeps. */
  function KeptParts(cwd: Value, path: Value): seq<Value>
    requires Rooted(cwd)
  {
    var trimmed := TrimSpace(path);
    Resolve([], Split(if Rooted(trimmed) then trimmed else cwd + [SLASH] + trimmed, SLASH))
  }

  /** The last part kept of the path, as it was given, ends in white space. */
  predicate KeptEndsBlank(cwd: Value, path: Value)
    requires Rooted(cwd)
  {
    var parts := KeptParts(cwd, path);
    parts != [] && EndsBlank(parts[|parts| - 1])
  }

  lemma NormalizedEndsAlike(cwd: Value, path: Value)
    requires Rooted(cwd) && Normalized(cwd, path).Some?
    ensures EndsBlank(Normalized(cwd, path).value) <==> KeptEndsBlank(cwd, path)
  {
    var trimmed := TrimSpace(path);
    var from := if Rooted(trimmed) then trimmed else cwd + [SLASH] + trimmed;
    CleanIsIdempotent(from);
    assert Normalized(cwd, path).value == Printed(KeptParts(cwd, path));
    SplitIsFree(from, SLASH, SLASH);
    ResolveIsProper([], Split(from, SLASH));
    PrintedEndsAlike(KeptParts(cwd, path));
  }

  lemma NormalizedAgain(cwd: Value, path: Value)
    requires Rooted(cwd) && Normalized(cwd, path).Some?
    ensures var once := Normalized(cwd, path).value;
            && Rooted(TrimSpace(once)) && (Normalized(cwd, once).Some? <==> Unbroken(TrimSpace(once)))
            && (Normalized(cwd, once) == Some(once) <==> Unbroken(once) && !EndsBlank(once))
  {
    NormalizedIsRooted(cwd, path);
    var once := Normalized(cwd, path).value;
    var from := Absolute(cwd, TrimSpace(path));
    CleanIsIdempotent(from);
    assert TrimStart(once) == once;
    var again := TrimEnd(once);
    assert again != [] && Rooted(again);
    assert forall i :: 0 <= i < |again| ==> again[i] == once[i];
    if again != once {
      CleanIsNotLonger(again);
      CleanIsIdempotent(again);
    }
  }

  lemma {:induction false} TrimStartIsFree(v: Value, u: Unit)
    requires Free(v, u)
    ensures Free(TrimStart(v), u)
  {
    if v != [] {
      TrimStartIsFree(v[1..], u);
    }
  }

  lemma TrimmedIsUnbroken(v: Value)
    requires Unbroken(v)
    ensures Unbroken(TrimSpace(v))
  {
    TrimStartIsFree(v, Rune('\0'));
    TrimStartIsFree(v, Rune('\r'));
    TrimStartIsFree(v, Rune('\n'));
  }

  /** Normalising again succeeds where the path can be written, and changes nothing exactly when also the last
      part kept does not end in white space. */
  lemma NormalizedTwice(cwd: Value, path: Value)
    requires Rooted(cwd) && Normalized(cwd, path).Some?
    ensures var once := Normalized(cwd, path).value;
            && (Unbroken(once) ==> Normalized(cwd, once).Some? && Unbroken(Normalized(cwd, once).value))
            && (Normalized(cwd, once) == Some(once) <==> Unbroken(once) && !KeptEndsBlank(cwd, path))
  {
    NormalizedAgain(cwd, path);
    NormalizedEndsAlike(cwd, path);
    var once := Normalized(cwd, path).value;
    if Unbroken(once) {
      TrimmedIsUnbroken(once);
      NormalizedIsUnbroken(cwd, once);
    }
  }

  lemma CleanOfSpace()
    ensures CleanPath([SLASH, Rune(' '), SLASH]) == [SLASH, Rune(' ')]
  {
    var space: Value := [Rune(' ')];
    var p := [SLASH, Rune(' '), SLASH];
    var none: seq<Value> := [];
    SplitFirst([], SLASH, space + [SLASH] + []);
    SplitFirst(space, SLASH, []);
    assert [] + [SLASH] + (space + [SLASH] + []) == p;
    assert Split(p, SLASH) == [[]] + ([space] + [[]]);
    var parts := Split(p, SLASH);
    assert |parts| == 3 && parts[0] == [] && parts[1] == space && parts[2] == [];
    assert Enter(none, parts[0]) == none && Enter(none, parts[1]) == [space] && Enter([space], parts[2]) == [space];
    assert parts[1..][1..] == parts[2..] && parts[2..][1..] == none;
    assert Resolve([space], parts[2..]) == [space];
    assert Resolve(none, parts[1..]) == [space];
  }

  /** `/ /` is cleaned to a path that ends in a space, and that one is trimmed to the root. */
  lemma SpaceAtTheEnd(cwd: Value)
    requires Rooted(cwd)
    ensures var once := [SLASH, Rune(' ')];
            Normalized(cwd, [SLASH, Rune(' '), SLASH]) == Some(once) && Normalized(cwd, once).Some?
              && Normalized(cwd, once) != Some(once)
  {
    var p := [SLASH, Rune(' '), SLASH];
    CleanOfSpace();
    CleanIsIdempotent(p);
    assert TrimSpace(p) == p;
    NormalizedAgain(cwd, p);
  }
}
