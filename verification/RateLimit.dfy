/**
 The fixed-window limiter kept in one table: an upsert that counts a hit and restarts an
 expired window, an opportunistic delete of other keys' expired rows, a read and a reset.
 */
module RateLimit {
  import opened Wrappers

  datatype Row = Row(count: nat, start: Time, expires: Time)
  type Table = map<string, Row>

  datatype Result = Counted(count: nat) | Invalid

  /** The row of a key after a hit: a window that is over starts again. */
  function Hit(rows: Table, key: string, window: int, now: Time): Row {
    if key in rows && now < rows[key].expires then rows[key].(count := rows[key].count + 1)
    else Row(1, now, now + window)
  }

  function Cleaned(rows: Table, key: string, now: Time): Table {
    map k | k in rows && (now < rows[k].expires || k == key) :: rows[k]
  }

  function Current(rows: Table, key: string, now: Time): nat {
    if key in rows && now < rows[key].expires then rows[key].count else 0
  }

  class Store {
    var rows: Table

    constructor ()
      ensures rows == map[]
    {
      rows := map[];
    }

    /** The upsert with its `RETURNING` clause. */
    method Upsert(key: string, window: int, now: Time) returns (count: nat)
      modifies this
      ensures rows == old(rows)[key := Hit(old(rows), key, window, now)] && count == rows[key].count
    {
      var expiresAt := now + window;
      if key in rows {
        var row := rows[key];
        if row.expires <= now {
          rows := rows[key := Row(1, now, expiresAt)];
        } else {
          rows := rows[key := Row(row.count + 1, row.start, row.expires)];
        }
      } else {
        rows := rows[key := Row(1, now, expiresAt)];
      }
      count := rows[key].count;
    }

    /** The delete that follows it, a statement of its own. */
    method Cleanup(key: string, now: Time)
      modifies this
      ensures rows == Cleaned(old(rows), key, now)
    {
      rows := map k | k in rows && !(rows[k].expires <= now && k != key) :: rows[k];
    }

    /** The two in a row; `cleaned` says whether the delete went through, which nobody looks at. */
    method Increment(key: string, window: int, now: Time, cleaned: bool) returns (r: Result)
      modifies this
      ensures key == "" || window <= 0 ==> r == Invalid && rows == old(rows)
      ensures key != "" && window > 0 ==>
                var hit := old(rows)[key := Hit(old(rows), key, window, now)];
                r == Counted(hit[key].count) && rows == if cleaned then Cleaned(hit, key, now) else hit
    {
      if key == "" || window <= 0 {
        return Invalid;
      }
      var count := Upsert(key, window, now);
      if cleaned {
        Cleanup(key, now);
      }
      return Counted(count);
    }

    method Count(key: string, now: Time) returns (r: Result)
      ensures r == if key == "" then Invalid else Counted(Current(rows, key, now))
    {
      if key == "" {
        return Invalid;
      }
      if key !in rows || rows[key].expires <= now {
        return Counted(0);
      }
      return Counted(rows[key].count);
    }

    method Reset(key: string) returns (r: Result)
      modifies this
      ensures key == "" ==> r == Invalid && rows == old(rows)
      ensures key != "" ==> r == Counted(0) && rows == old(rows) - {key}
    {
      if key == "" {
        return Invalid;
      }
      rows := rows - {key};
      return Counted(0);
    }
  }

  // ----- Runs

  /** A statement that reached the table, with the clock value its call had read before. */
  datatype Op =
    | Increment(key: string, window: int, now: Time)
    | Cleanup(key: string, now: Time)
    | Count(key: string, now: Time)
    | Reset(key: string)

  predicate Valid(op: Op) { op.key != "" && (op.Increment? ==> op.window > 0) }

  function Answer(rows: Table, op: Op): nat {
    match op
    case Increment(key, window, now) => Hit(rows, key, window, now).count
    case Count(key, now) => Current(rows, key, now)
    case Cleanup(_, _) => 0
    case Reset(_) => 0
  }

  function Apply(rows: Table, op: Op): Table {
    match op
    case Increment(key, window, now) => rows[key := Hit(rows, key, window, now)]
    case Cleanup(key, now) => Cleaned(rows, key, now)
    case Count(_, _) => rows
    case Reset(key) => rows - {key}
  }

  function Rows(log: seq<Op>): Table {
    if log == [] then map[] else Apply(Rows(log[..|log| - 1]), log[|log| - 1])
  }

  /** The answer given to statement `i` of the log. */
  function AnswerAt(log: seq<Op>, i: nat): nat
    requires i < |log|
  {
    Answer(Rows(log[..i]), log[i])
  }

  // ----- The event log

  /** The increment that opened the window a key is in, if any. */
  function Opener(log: seq<Op>, key: string): int
    ensures -1 <= Opener(log, key) < |log|
    ensures Opener(log, key) >= 0 ==> log[Opener(log, key)].Increment? && log[Opener(log, key)].key == key
  {
    if log == [] then -1 else
    var front, last := log[..|log| - 1], log[|log| - 1];
    var before := Opener(front, key);
    if last.key != key || last.Count? || last.Cleanup? then before
    else if last.Reset? then -1
    else if before >= 0 && last.now < log[before].now + log[before].window then before
    else |log| - 1
  }

  /** How many increments of a key the log holds from call `from` on. */
  function Hits(log: seq<Op>, key: string, from: nat): nat {
    if |log| <= from then 0
    else Hits(log[..|log| - 1], key, from) + (if log[|log| - 1].Increment? && log[|log| - 1].key == key then 1 else 0)
  }

  /** What the log says a call must be answered. */
  function Expected(log: seq<Op>, op: Op): nat {
    match op
    case Reset(_) => 0
    case Cleanup(_, _) => 0
    case Count(key, now) =>
      var open := Opener(log, key);
      if open >= 0 && now < log[open].now + log[open].window then Hits(log, key, open) else 0
    case Increment(key, _, _) =>
      Hits(log + [op], key, Opener(log + [op], key))
  }

  // ----- The table tells what the log says

  /** The first statement of a call that read the clock. */
  predicate Timed(op: Op) { op.Increment? || op.Count? }

  /** Calls reach the table with clock values at most `lag` behind an earlier one's; a cleanup may come any
      time later. */
  predicate InOrder(log: seq<Op>, lag: nat) {
    forall i, j :: 0 <= i < j < |log| && Timed(log[i]) && Timed(log[j]) ==> log[i].now - lag <= log[j].now
  }

  /** A cleanup has the key and the clock value of an increment before it. */
  predicate Follows(log: seq<Op>, i: nat)
    requires i < |log|
  {
    log[i].Cleanup? ==>
      exists j :: 0 <= j < i && log[j].Increment? && log[j].key == log[i].key && log[j].now == log[i].now
  }

  predicate ValidLog(log: seq<Op>) { forall i :: 0 <= i < |log| ==> Valid(log[i]) && Follows(log, i) }

  predicate UpTo(log: seq<Op>, clock: Time) {
    forall i :: 0 <= i < |log| && Timed(log[i]) ==> log[i].now <= clock
  }

  /** The row is the open window's, or was deleted after the window was over. */
  predicate Tells(rows: Table, log: seq<Op>, key: string, clock: Time) {
    var open := Opener(log, key);
    if open < 0 then key !in rows
    else if key !in rows then log[open].now + log[open].window <= clock
    else rows[key] == Row(Hits(log, key, open), log[open].now, log[open].now + log[open].window)
  }

  /** A call reads the current time; a cleanup's is never ahead of it. */
  predicate Within(op: Op, clock: Time) {
    (Timed(op) ==> op.now == clock) && (op.Cleanup? ==> op.now <= clock)
  }

  /** A call on another key leaves the key's window alone, and its row unless it has expired. */
  lemma OtherTells(front: seq<Op>, last: Op, rows: Table, key: string, clock: Time)
    requires Tells(rows, front, key, clock) && Within(last, clock) && last.key != key
    ensures Tells(Apply(rows, last), front + [last], key, clock)
  {
    var log := front + [last];
    assert log[..|front|] == front && log[|front|] == last;
    assert Opener(log, key) == Opener(front, key);
  }

  lemma OpenerOfHit(front: seq<Op>, last: Op)
    requires last.Increment?
    ensures var before := Opener(front, last.key);
            Opener(front + [last], last.key) ==
            if before >= 0 && last.now < front[before].now + front[before].window then before else |front|
  {
    assert (front + [last])[..|front|] == front;
  }

  lemma HitsOneMore(front: seq<Op>, last: Op, from: nat)
    requires last.Increment? && from <= |front|
    ensures Hits(front + [last], last.key, from) == (if from == |front| then 1 else Hits(front, last.key, from) + 1)
  {
    assert (front + [last])[..|front|] == front;
  }

  lemma HitApplies(rows: Table, last: Op)
    requires last.Increment?
    ensures last.key in Apply(rows, last) && Apply(rows, last)[last.key] == Hit(rows, last.key, last.window, last.now)
  {
  }

  lemma HitTells(front: seq<Op>, last: Op, rows: Table, clock: Time)
    requires Tells(rows, front, last.key, clock) && last.Increment? && last.now == clock
    ensures Tells(Apply(rows, last), front + [last], last.key, clock) && Answer(rows, last) == Expected(front, last)
  {
    OpenerOfHit(front, last);
    var log, open := front + [last], Opener(front + [last], last.key);
    HitsOneMore(front, last, open);
    HitRow(front, last, rows, clock, open);
    HitApplies(rows, last);
    assert log[open] == if open == |front| then last else front[open];
    assert Hit(rows, last.key, last.window, last.now)
           == Row(Hits(log, last.key, open), log[open].now, log[open].now + log[open].window);
  }

  lemma HitRow(front: seq<Op>, last: Op, rows: Table, clock: Time, open: nat)
    requires Tells(rows, front, last.key, clock) && last.Increment? && last.now == clock
    requires var before := Opener(front, last.key);
             open == if before >= 0 && clock < front[before].now + front[before].window then before else |front|
    ensures Hit(rows, last.key, last.window, last.now) ==
            if open == |front| then Row(1, clock, clock + last.window)
            else Row(Hits(front, last.key, open) + 1, front[open].now, front[open].now + front[open].window)
  {
  }

  lemma StepTells(front: seq<Op>, last: Op, rows: Table, key: string, clock: Time)
    requires Tells(rows, front, key, clock) && Within(last, clock)
    ensures Tells(Apply(rows, last), front + [last], key, clock)
    ensures last.key == key ==> Answer(rows, last) == Expected(front, last)
  {
    if last.key != key {
      OtherTells(front, last, rows, key, clock);
    } else if last.Increment? {
      HitTells(front, last, rows, clock);
    } else {
      assert (front + [last])[..|front|] == front;
    }
  }

  lemma PrefixIsValid(log: seq<Op>, n: nat)
    requires n <= |log| && ValidLog(log)
    ensures ValidLog(log[..n])
  {
    forall i | 0 <= i < n ensures Valid(log[..n][i]) && Follows(log[..n], i) {
      assert Follows(log, i);
      if log[i].Cleanup? {
        var j :| 0 <= j < i && log[j].Increment? && log[j].key == log[i].key && log[j].now == log[i].now;
        assert log[..n][j] == log[j];
      }
    }
  }

  /** The last statement reads a clock value all earlier ones are up to. */
  function ClockAt(log: seq<Op>, clock: Time): Time
    requires log != []
  {
    if Timed(log[|log| - 1]) then log[|log| - 1].now else clock
  }

  lemma LastIsWithin(log: seq<Op>, clock: Time)
    requires log != [] && ValidLog(log) && InOrder(log, 0) && UpTo(log, clock)
    ensures var now := ClockAt(log, clock);
            now <= clock && UpTo(log[..|log| - 1], now) && Within(log[|log| - 1], now)
  {
    assert Follows(log, |log| - 1);
  }

  lemma {:induction false} TableTells(log: seq<Op>, key: string, clock: Time)
    requires ValidLog(log) && InOrder(log, 0) && UpTo(log, clock)
    ensures Tells(Rows(log), log, key, clock)
  {
    if log != [] {
      var front, last := log[..|log| - 1], log[|log| - 1];
      assert log == front + [last];
      LastIsWithin(log, clock);
      PrefixIsValid(log, |log| - 1);
      TableTells(front, key, ClockAt(log, clock));
      StepTells(front, last, Rows(front), key, ClockAt(log, clock));
    }
  }

  /** With calls in clock order, every answer is the number of hits since the window opened,
      wherever the deletes of earlier calls fall. */
  lemma AnswersCountTheWindow(log: seq<Op>, i: nat)
    requires i < |log| && ValidLog(log) && InOrder(log, 0)
    ensures AnswerAt(log, i) == Expected(log[..i], log[i])
  {
    var front, last := log[..i], log[i];
    PrefixIsValid(log, i);
    if Timed(last) {
      TableTells(front, last.key, last.now);
      StepTells(front, last, Rows(front), last.key, last.now);
    }
  }

  // ----- Cleanup

  /** The log without its deletes. */
  function Calls(log: seq<Op>): seq<Op> {
    if log == [] then []
    else Calls(log[..|log| - 1]) + (if log[|log| - 1].Cleanup? then [] else [log[|log| - 1]])
  }

  /** The smaller table lacks nothing but rows that were over by then. */
  ghost predicate Lacks(rows: Table, all: Table, clock: Time) {
    forall key :: LacksAt(rows, all, clock, key)
  }

  predicate LacksAt(rows: Table, all: Table, clock: Time, key: string) {
    if key in rows then key in all && rows[key] == all[key] else key in all ==> all[key].expires <= clock
  }

  /** A call is answered alike, and both tables go on alike. */
  lemma CallKeepsLacks(rows: Table, all: Table, op: Op, clock: Time)
    requires Lacks(rows, all, clock) && Within(op, clock) && !op.Cleanup?
    ensures Lacks(Apply(rows, op), Apply(all, op), clock) && Answer(rows, op) == Answer(all, op)
  {
    assert LacksAt(rows, all, clock, op.key);
    forall key ensures LacksAt(Apply(rows, op), Apply(all, op), clock, key) {
      assert LacksAt(rows, all, clock, key);
    }
  }

  lemma CleanupKeepsLacks(rows: Table, all: Table, op: Op, clock: Time)
    requires Lacks(rows, all, clock) && Within(op, clock) && op.Cleanup?
    ensures Lacks(Apply(rows, op), all, clock)
  {
    forall key ensures LacksAt(Apply(rows, op), all, clock, key) {
      assert LacksAt(rows, all, clock, key);
    }
  }

  lemma LacksLater(rows: Table, all: Table, clock: Time, later: Time)
    requires Lacks(rows, all, clock) && clock <= later
    ensures Lacks(rows, all, later)
  {
    forall key ensures LacksAt(rows, all, later, key) {
      assert LacksAt(rows, all, clock, key);
    }
  }

  lemma {:induction false} CleanupOnlyLacks(log: seq<Op>, clock: Time)
    requires ValidLog(log) && InOrder(log, 0) && UpTo(log, clock)
    ensures Lacks(Rows(log), Rows(Calls(log)), clock)
  {
    if log != [] {
      var front, last, now := log[..|log| - 1], log[|log| - 1], ClockAt(log, clock);
      LastIsWithin(log, clock);
      PrefixIsValid(log, |log| - 1);
      CleanupOnlyLacks(front, now);
      if last.Cleanup? {
        CleanupKeepsLacks(Rows(front), Rows(Calls(front)), last, now);
        assert Calls(log) == Calls(front);
      } else {
        CallKeepsLacks(Rows(front), Rows(Calls(front)), last, now);
        RowsOneMore(Calls(front), last);
      }
      LacksLater(Rows(log), Rows(Calls(log)), now, clock);
    }
  }

  /** What a call would be answered had no delete gone through. */
  function AnswerWithoutCleanup(log: seq<Op>, i: nat): nat
    requires i < |log|
  {
    Answer(Rows(Calls(log[..i])), log[i])
  }

  /** No delete, wherever it falls, changes an answer. */
  lemma CleanupIsInvisible(log: seq<Op>, i: nat)
    requires i < |log| && ValidLog(log) && InOrder(log, 0)
    ensures AnswerAt(log, i) == AnswerWithoutCleanup(log, i)
  {
    var front, op := log[..i], log[i];
    PrefixIsValid(log, i);
    if Timed(op) {
      CleanupOnlyLacks(front, op.now);
      CallKeepsLacks(Rows(front), Rows(Calls(front)), op, op.now);
    }
  }

  /** The property above for calls that may be late by so much. */
  ghost predicate CleanupInvisibleWithin(lag: nat) {
    forall log, i: nat :: i < |log| && ValidLog(log) && InOrder(log, lag) ==>
        AnswerAt(log, i) == AnswerWithoutCleanup(log, i)
  }

  lemma RowsOneMore(log: seq<Op>, op: Op)
    ensures Rows(log + [op]) == Apply(Rows(log), op)
  {
    assert (log + [op])[..|log|] == log;
  }

  lemma CallsOneMore(log: seq<Op>, op: Op)
    ensures Calls(log + [op]) == Calls(log) + (if op.Cleanup? then [] else [op])
  {
    assert (log + [op])[..|log|] == log;
  }

  /** One key expires, and another key's call deletes its row. */
  function Expiry(x: string, y: string): seq<Op> { [Increment(x, 1, 0), Increment(y, 1, 1), Cleanup(y, 1)] }

  lemma RowsOfExpiry(x: string, y: string)
    requires x != y
    ensures x !in Rows(Expiry(x, y)) && Current(Rows(Calls(Expiry(x, y))), x, 0) == 1
  {
    var a, b, clean := Increment(x, 1, 0), Increment(y, 1, 1), Cleanup(y, 1);
    RowsOneMore([], a);
    RowsOneMore([a], b);
    RowsOneMore([a, b], clean);
    CallsOneMore([], a);
    CallsOneMore([a], b);
    CallsOneMore([a, b], clean);
    assert [] + [a] == [a] && [a] + [b] == [a, b] && [a, b] + [clean] == Expiry(x, y);
    assert Rows([a]) == map[x := Row(1, 0, 1)];
    assert Rows([a, b]) == map[x := Row(1, 0, 1), y := Row(1, 1, 2)];
  }

  /** A call that read the clock before then finds the key's hits gone. */
  lemma LateCallSeesCleanup(x: string, y: string)
    requires x != y && x != "" && y != ""
    ensures var log := Expiry(x, y) + [Count(x, 0)];
            ValidLog(log) && InOrder(log, 1) && AnswerAt(log, 3) != AnswerWithoutCleanup(log, 3)
  {
    var log := Expiry(x, y) + [Count(x, 0)];
    assert log[1].Increment? && log[1].key == log[2].key && log[1].now == log[2].now;
    assert log[..3] == Expiry(x, y);
    RowsOfExpiry(x, y);
  }

  /** Cleanup is invisible in all logs with so much lag exactly when there is none. */
  lemma CleanupInvisibleExactlyInOrder(lag: nat)
    ensures CleanupInvisibleWithin(lag) <==> lag == 0
  {
    if lag == 0 {
      forall log, i: nat | i < |log| && ValidLog(log) && InOrder(log, lag)
        ensures AnswerAt(log, i) == AnswerWithoutCleanup(log, i)
      {
        CleanupIsInvisible(log, i);
      }
    } else {
      LateCallSeesCleanup("a", "b");
      assert InOrder(Expiry("a", "b") + [Count("a", 0)], lag);
    }
  }
}
