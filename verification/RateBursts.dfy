/**
 How many increments a limit lets through in any stretch of one window length.
 */
module RateBursts {
  import opened Wrappers
  import opened RateLimit

  predicate IsHit(op: Op, key: string) { op.Increment? && op.key == key }

  /** One window length for the key, and nobody resets it. */
  predicate Steady(log: seq<Op>, key: string, window: int) {
    && (forall i :: 0 <= i < |log| && IsHit(log[i], key) ==> log[i].window == window)
    && (forall i :: 0 <= i < |log| && log[i].Reset? ==> log[i].key != key)
  }

  /** The increments of a key within `[from, from + window]` that were answered at most `limit`. */
  function LetThrough(log: seq<Op>, key: string, window: int, from: Time, limit: nat): set<nat> {
    set i: nat | i < |log| && IsHit(log[i], key) && from <= log[i].now <= from + window && AnswerAt(log, i) <= limit
  }

  /** The increment that opened the window of increment `i`. */
  function WindowOf(log: seq<Op>, key: string, i: nat): int
    requires i < |log|
  {
    Opener(log[..i + 1], key)
  }

  lemma Prefix(log: seq<Op>, n: nat)
    requires n < |log|
    ensures log[..n + 1][..n] == log[..n] && log[..n + 1][n] == log[n] && log[..n + 1] == log[..n] + [log[n]]
  {
  }

  /** A hit is inside the window it is counted in. */
  lemma HitIsInWindow(log: seq<Op>, key: string, window: int, i: nat)
    requires i < |log| && window > 0 && Steady(log, key, window) && InOrder(log, 0) && IsHit(log[i], key)
    ensures var open := WindowOf(log, key, i);
            0 <= open <= i && IsHit(log[open], key) && log[open].now <= log[i].now < log[open].now + window
  {
    Prefix(log, i);
    var open := WindowOf(log, key, i);
    assert IsHit(log[open], key);
  }

  predicate Apart(log: seq<Op>, window: int, p: int, q: int) {
    p <= q && (0 <= p < q < |log| && log[p].Increment? && log[q].Increment? ==> log[p].now + window <= log[q].now)
  }

  /** Windows follow one another at least one window length apart. */
  lemma {:induction false} WindowsAreApart(log: seq<Op>, key: string, window: int, n: nat, m: nat)
    requires n <= m <= |log| && window > 0 && Steady(log, key, window)
    ensures Apart(log, window, Opener(log[..n], key), Opener(log[..m], key))
    decreases m
  {
    if n < m {
      WindowsAreApart(log, key, window, n, m - 1);
      Prefix(log, m - 1);
      var before := Opener(log[..m - 1], key);
      assert before >= 0 ==> IsHit(log[before], key);
    }
  }

  lemma {:induction false} HitsGrow(log: seq<Op>, key: string, from: nat, n: nat, m: nat)
    requires n <= m <= |log|
    ensures Hits(log[..n], key, from) <= Hits(log[..m], key, from)
    decreases m
  {
    if n < m {
      HitsGrow(log, key, from, n, m - 1);
      Prefix(log, m - 1);
    }
  }

  lemma AnswerIsHits(log: seq<Op>, key: string, i: nat)
    requires i < |log| && ValidLog(log) && InOrder(log, 0) && IsHit(log[i], key) && WindowOf(log, key, i) >= 0
    ensures AnswerAt(log, i) == Hits(log[..i + 1], key, WindowOf(log, key, i))
  {
    AnswersCountTheWindow(log, i);
    Prefix(log, i);
  }

  /** Within a window every increment gets a larger answer than the one before. */
  lemma AnswersGrow(log: seq<Op>, key: string, window: int, i: nat, j: nat)
    requires i < j < |log| && window > 0 && ValidLog(log) && InOrder(log, 0) && Steady(log, key, window)
    requires IsHit(log[i], key) && IsHit(log[j], key) && WindowOf(log, key, i) == WindowOf(log, key, j)
    ensures AnswerAt(log, i) < AnswerAt(log, j)
  {
    HitIsInWindow(log, key, window, i);
    var open := WindowOf(log, key, i);
    AnswerIsHits(log, key, i);
    AnswerIsHits(log, key, j);
    HitsGrow(log, key, open, i + 1, j);
    Prefix(log, j);
  }

  lemma AnswerIsPositive(log: seq<Op>, i: nat)
    requires i < |log| && log[i].Increment?
    ensures AnswerAt(log, i) >= 1
  {
  }

  ghost predicate OneWindow(log: seq<Op>, key: string, hits: set<nat>) {
    && (forall i :: i in hits ==> 0 <= i < |log| && IsHit(log[i], key))
    && (forall i, j :: i in hits && j in hits ==> WindowOf(log, key, i) == WindowOf(log, key, j))
  }

  /** A window answers at most `limit` increments with at most `limit`. */
  lemma {:induction false} WindowLetsThrough(log: seq<Op>, key: string, window: int, hits: set<nat>, limit: nat)
    requires window > 0 && ValidLog(log) && InOrder(log, 0) && Steady(log, key, window) && OneWindow(log, key, hits)
    requires forall i :: i in hits ==> AnswerAt(log, i) <= limit
    ensures |hits| <= limit
    decreases limit
  {
    if hits == {} {
      return;
    }
    var some :| some in hits;
    AnswerIsPositive(log, some);
    if i :| i in hits && AnswerAt(log, i) == limit {
      forall j | j in hits - {i} ensures AnswerAt(log, j) <= limit - 1 {
        if i < j {
          AnswersGrow(log, key, window, i, j);
        } else {
          AnswersGrow(log, key, window, j, i);
        }
      }
      WindowLetsThrough(log, key, window, hits - {i}, limit - 1);
    } else {
      WindowLetsThrough(log, key, window, hits, limit - 1);
    }
  }

  lemma LaterWindow(log: seq<Op>, key: string, window: int, i: nat, j: nat)
    requires i < |log| && j < |log| && window > 0 && Steady(log, key, window)
    requires WindowOf(log, key, i) < WindowOf(log, key, j)
    ensures Apart(log, window, WindowOf(log, key, i), WindowOf(log, key, j))
  {
    if i <= j {
      WindowsAreApart(log, key, window, i + 1, j + 1);
    } else {
      WindowsAreApart(log, key, window, j + 1, i + 1);
    }
  }

  /** Hits of three windows do not fit in one window length. */
  lemma ThreeWindowsAreTooLong(log: seq<Op>, key: string, window: int, i: nat, j: nat, k: nat)
    requires i < |log| && j < |log| && k < |log| && window > 0 && InOrder(log, 0) && Steady(log, key, window)
    requires IsHit(log[i], key) && IsHit(log[j], key) && IsHit(log[k], key)
    requires WindowOf(log, key, i) < WindowOf(log, key, j) < WindowOf(log, key, k)
    ensures log[i].now + window < log[k].now
  {
    HitIsInWindow(log, key, window, i);
    HitIsInWindow(log, key, window, j);
    HitIsInWindow(log, key, window, k);
    LaterWindow(log, key, window, i, j);
    LaterWindow(log, key, window, j, k);
  }

  lemma NoThreeWindows(log: seq<Op>, key: string, window: int, from: Time, i: nat, j: nat, k: nat)
    requires i < |log| && j < |log| && k < |log| && window > 0 && InOrder(log, 0) && Steady(log, key, window)
    requires IsHit(log[i], key) && IsHit(log[j], key) && IsHit(log[k], key)
    requires from <= log[i].now <= from + window && from <= log[j].now <= from + window
             && from <= log[k].now <= from + window
    ensures WindowOf(log, key, i) == WindowOf(log, key, j) || WindowOf(log, key, j) == WindowOf(log, key, k)
            || WindowOf(log, key, i) == WindowOf(log, key, k)
  {
    var p, q, r := WindowOf(log, key, i), WindowOf(log, key, j), WindowOf(log, key, k);
    if p < q < r { ThreeWindowsAreTooLong(log, key, window, i, j, k); }
    if p < r < q { ThreeWindowsAreTooLong(log, key, window, i, k, j); }
    if q < p < r { ThreeWindowsAreTooLong(log, key, window, j, i, k); }
    if q < r < p { ThreeWindowsAreTooLong(log, key, window, j, k, i); }
    if r < p < q { ThreeWindowsAreTooLong(log, key, window, k, i, j); }
    if r < q < p { ThreeWindowsAreTooLong(log, key, window, k, j, i); }
  }

  ghost predicate InStretch(log: seq<Op>, key: string, window: int, from: Time, limit: nat, hits: set<nat>) {
    forall i :: i in hits ==>
      i < |log| && IsHit(log[i], key) && from <= log[i].now <= from + window && AnswerAt(log, i) <= limit
  }

  /** The hits of one window, and the others. */
  ghost function Sharing(log: seq<Op>, key: string, hits: set<nat>, open: int): set<nat> {
    set j | j in hits && j < |log| && WindowOf(log, key, j) == open
  }

  lemma SharingLetsThrough(log: seq<Op>, key: string, window: int, from: Time, limit: nat, hits: set<nat>, open: int)
    requires window > 0 && ValidLog(log) && InOrder(log, 0) && Steady(log, key, window)
    requires InStretch(log, key, window, from, limit, hits)
    ensures |Sharing(log, key, hits, open)| <= limit
  {
    WindowLetsThrough(log, key, window, Sharing(log, key, hits, open), limit);
  }

  /** Leaving out the hits of one window leaves hits of one window. */
  lemma OthersLetThrough(log: seq<Op>, key: string, window: int, from: Time, limit: nat, hits: set<nat>, i: nat)
    requires window > 0 && ValidLog(log) && InOrder(log, 0) && Steady(log, key, window)
    requires InStretch(log, key, window, from, limit, hits) && i in hits
    ensures |hits - Sharing(log, key, hits, WindowOf(log, key, i))| <= limit
  {
    var others := hits - Sharing(log, key, hits, WindowOf(log, key, i));
    forall j, k | j in others && k in others ensures WindowOf(log, key, j) == WindowOf(log, key, k) {
      NoThreeWindows(log, key, window, from, i, j, k);
    }
    WindowLetsThrough(log, key, window, others, limit);
  }

  /** In any stretch of one window length, ends included, at most twice the limit gets through. */
  lemma AtMostTwiceTheLimit(log: seq<Op>, key: string, window: int, from: Time, limit: nat)
    requires window > 0 && ValidLog(log) && InOrder(log, 0) && Steady(log, key, window)
    ensures |LetThrough(log, key, window, from, limit)| <= 2 * limit
  {
    var hits := LetThrough(log, key, window, from, limit);
    if hits != {} {
      var i :| i in hits;
      SharingLetsThrough(log, key, window, from, limit, hits, WindowOf(log, key, i));
      OthersLetThrough(log, key, window, from, limit, hits, i);
    }
  }

  // ----- The bound is reached

  /** `limit` increments as a window opens, and as many the moment it is over. */
  function Burst(key: string, window: int, limit: nat, i: nat): Op {
    Increment(key, window, if i < limit then 0 else window)
  }

  function Bursts(key: string, window: int, limit: nat, n: nat): seq<Op> {
    if n == 0 then [] else Bursts(key, window, limit, n - 1) + [Burst(key, window, limit, n - 1)]
  }

  lemma {:induction false} BurstsAt(key: string, window: int, limit: nat, n: nat, i: nat)
    requires i < n
    ensures |Bursts(key, window, limit, n)| == n
    ensures Bursts(key, window, limit, n)[i] == Burst(key, window, limit, i)
    ensures Bursts(key, window, limit, n)[..i] == Bursts(key, window, limit, i)
  {
    var all, front := Bursts(key, window, limit, n), Bursts(key, window, limit, n - 1);
    BurstsLength(key, window, limit, n - 1);
    assert all == front + [Burst(key, window, limit, n - 1)];
    if i < n - 1 {
      BurstsAt(key, window, limit, n - 1, i);
      assert all[..i] == front[..i];
    } else {
      assert all[..i] == front;
    }
  }

  lemma {:induction false} BurstsLength(key: string, window: int, limit: nat, n: nat)
    ensures |Bursts(key, window, limit, n)| == n
  {
    if n > 0 {
      BurstsLength(key, window, limit, n - 1);
    }
  }

  function RowAfter(window: int, limit: nat, n: nat): Row
    requires n > 0
  {
    if n <= limit then Row(n, 0, window) else Row(n - limit, window, 2 * window)
  }

  lemma BurstHits(key: string, window: int, limit: nat, n: nat, rows: Table)
    requires window > 0 && n < 2 * limit && rows == (if n == 0 then map[] else map[key := RowAfter(window, limit, n)])
    ensures Apply(rows, Burst(key, window, limit, n)) == map[key := RowAfter(window, limit, n + 1)]
    ensures Answer(rows, Burst(key, window, limit, n)) <= limit
  {
  }

  lemma {:induction false} RowsOfBursts(key: string, window: int, limit: nat, n: nat)
    requires window > 0 && n <= 2 * limit
    ensures Rows(Bursts(key, window, limit, n)) == if n == 0 then map[] else map[key := RowAfter(window, limit, n)]
  {
    if n > 0 {
      var front := Bursts(key, window, limit, n - 1);
      RowsOfBursts(key, window, limit, n - 1);
      RowsOneMore(front, Burst(key, window, limit, n - 1));
      BurstHits(key, window, limit, n - 1, Rows(front));
    }
  }

  lemma BurstAnswer(key: string, window: int, limit: nat, n: nat, i: nat)
    requires window > 0 && i < n <= 2 * limit
    ensures |Bursts(key, window, limit, n)| == n && Bursts(key, window, limit, n)[i] == Burst(key, window, limit, i)
    ensures AnswerAt(Bursts(key, window, limit, n), i) <= limit
  {
    BurstsAt(key, window, limit, n, i);
    RowsOfBursts(key, window, limit, i);
    BurstHits(key, window, limit, i, Rows(Bursts(key, window, limit, i)));
  }

  lemma BurstIsLetThrough(key: string, window: int, limit: nat, n: nat, i: nat)
    requires window > 0 && i < n <= 2 * limit
    ensures i in LetThrough(Bursts(key, window, limit, n), key, window, 0, limit)
  {
    BurstAnswer(key, window, limit, n, i);
  }

  function Below(n: nat): set<nat> { if n == 0 then {} else Below(n - 1) + {n - 1} }

  lemma {:induction false} BelowIsRight(n: nat)
    ensures |Below(n)| == n && forall i: nat :: i in Below(n) <==> i < n
  {
    if n > 0 {
      BelowIsRight(n - 1);
    }
  }

  lemma BurstsAreLawful(key: string, window: int, limit: nat, n: nat)
    requires key != "" && window > 0
    ensures var log := Bursts(key, window, limit, n); ValidLog(log) && InOrder(log, 0) && Steady(log, key, window)
  {
    BurstsLength(key, window, limit, n);
    forall i: nat | i < n ensures Bursts(key, window, limit, n)[i] == Burst(key, window, limit, i) {
      BurstsAt(key, window, limit, n, i);
    }
  }

  /** No smaller bound than twice the limit would do. */
  lemma TwiceTheLimitIsReached(key: string, window: int, limit: nat)
    requires key != "" && window > 0
    ensures var log := Bursts(key, window, limit, 2 * limit);
            && ValidLog(log) && InOrder(log, 0) && Steady(log, key, window)
            && |LetThrough(log, key, window, 0, limit)| == 2 * limit
  {
    var n := 2 * limit;
    var log := Bursts(key, window, limit, n);
    BurstsAreLawful(key, window, limit, n);
    BurstsLength(key, window, limit, n);
    BelowIsRight(n);
    forall i | i in Below(n) ensures i in LetThrough(log, key, window, 0, limit) {
      BurstIsLetThrough(key, window, limit, n, i);
    }
    assert LetThrough(log, key, window, 0, limit) == Below(n);
  }
}
