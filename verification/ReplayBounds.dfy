/**
 The bounds of `ReplayRuns.WithinBounds` are exact: past any one of them some run
 stores the same PDU twice.
 */
module ReplayBounds {
  import opened Wrappers
  import opened ReplayGuard
  import opened ReplayRuns

  ghost predicate Reaches(policy: Policy, s: State, t: State) {
    exists steps :: Allowed(policy, s, steps) && Run(policy, s, steps) == t
  }

  lemma {:induction false} RunOneMore(policy: Policy, s: State, steps: seq<Step>, step: Step)
    requires Allowed(policy, s, steps) && Enabled(policy, Run(policy, s, steps), step)
    ensures Allowed(policy, s, steps + [step])
    ensures Run(policy, s, steps + [step]) == Apply(policy, Run(policy, s, steps), step)
    decreases |steps|
  {
    if steps == [] {
      assert ([] + [step])[1..] == [];
      assert Run(policy, Apply(policy, s, step), []) == Apply(policy, s, step);
    } else {
      RunOneMore(policy, Apply(policy, s, steps[0]), steps[1..], step);
      assert (steps + [step])[1..] == steps[1..] + [step];
    }
  }

  lemma Start(policy: Policy, s: State)
    ensures Reaches(policy, s, s)
  {
    assert Allowed(policy, s, []) && Run(policy, s, []) == s;
  }

  lemma Go(policy: Policy, s: State, t: State, step: Step) returns (u: State)
    requires Reaches(policy, s, t) && Enabled(policy, t, step)
    ensures u == Apply(policy, t, step) && Reaches(policy, s, u)
  {
    var steps :| Allowed(policy, s, steps) && Run(policy, s, steps) == t;
    RunOneMore(policy, s, steps, step);
    u := Apply(policy, t, step);
  }

  function AfterBegin(policy: Policy, s: State, h: nat, pdu: Pdu, at: Time): State {
    s.(memory := BeginMemory(policy.res, s.memory, pdu.id, s.now), handlers := s.handlers[h := Begun(pdu, at)])
  }

  function AfterPersist(policy: Policy, s: State, h: nat, pdu: Pdu, ok: bool): State {
    s.(rows := ClaimRows(s.rows, KeyOf(pdu), s.now, s.now + LEASE * policy.res, policy.retention),
       handlers := s.handlers[h := if ok then Persisted(pdu, s.now) else Failed(pdu, s.now)],
       stored := if ok then s.stored + [pdu] else s.stored)
  }

  lemma ArriveAndBegin(policy: Policy, s: State, t: State, h: nat, pdu: Pdu) returns (u: State)
    requires Reaches(policy, s, t)
    requires h !in t.handlers && InWindow(policy.res, pdu, t.now)
             && Admit(policy.res, t.memory, pdu.id, t.now) == Admitted
    ensures u == AfterBegin(policy, t, h, pdu, t.now) && Reaches(policy, s, u)
  {
    u := Go(policy, s, t, Arrive(h, pdu));
    u := Go(policy, s, u, Begin(h));
    assert u.handlers == AfterBegin(policy, t, h, pdu, t.now).handlers;
  }

  lemma ClaimAndPersist(policy: Policy, s: State, t: State, h: nat, ok: bool) returns (u: State)
    requires Reaches(policy, s, t)
    requires h in t.handlers && t.handlers[h].Begun?
    requires t.handlers[h].at <= t.now <= t.handlers[h].at + policy.claimDelay
    requires Claimable(t.rows, KeyOf(t.handlers[h].pdu), t.now, policy.retention)
    ensures u == AfterPersist(policy, t, h, t.handlers[h].pdu, ok) && Reaches(policy, s, u)
  {
    var pdu := t.handlers[h].pdu;
    u := Go(policy, s, t, Claim(h, t.now));
    u := Go(policy, s, u, Persist(h, ok));
    assert u.handlers == AfterPersist(policy, t, h, pdu, ok).handlers;
  }

  /** The guard lets through whatever is in the window, unknown to memory and claimable. */
  lemma Intake(policy: Policy, s: State, t: State, h: nat, pdu: Pdu, ok: bool) returns (u: State)
    requires Reaches(policy, s, t)
    requires h !in t.handlers && InWindow(policy.res, pdu, t.now)
    requires Admit(policy.res, t.memory, pdu.id, t.now) == Admitted
             && Claimable(t.rows, KeyOf(pdu), t.now, policy.retention)
    ensures u == AfterPersist(policy, AfterBegin(policy, t, h, pdu, t.now), h, pdu, ok) && Reaches(policy, s, u)
  {
    u := ArriveAndBegin(policy, s, t, h, pdu);
    u := ClaimAndPersist(policy, s, u, h, ok);
  }

  lemma ForgottenIsAdmitted(res: Resolution, memory: Memory, id: string, now: Time)
    requires id !in memory.processing
    requires forall x :: x in memory.processed ==> now - memory.processed[x] > MEMORY * res
    ensures Admit(res, memory, id, now) == Admitted
            && BeginMemory(res, memory, id, now) == Memory(map[], memory.processing + {id})
  {
    assert Remembered(res, memory.processed, now) == map[];
  }

  /** The extreme PDU: created as far in the future as time 0 accepts. */
  const LATEST := Pdu("a", "b", SKEW)

  lemma LatestIsIn(res: Resolution, now: Time)
    ensures InWindow(res, LATEST, now) <==> 0 <= now < (2 * SKEW + 1) * res
  {
    WindowInTicks(res, LATEST, now);
  }

  lemma FirstBegun(policy: Policy) returns (s: State)
    ensures s == State(0, Memory(map[], {LATEST.id}), map[], map[0 := Begun(LATEST, 0)], [])
    ensures Reaches(policy, Init(0), s)
  {
    Start(policy, Init(0));
    LatestIsIn(policy.res, 0);
    ForgottenIsAdmitted(policy.res, Init(0).memory, LATEST.id, 0);
    s := ArriveAndBegin(policy, Init(0), Init(0), 0, LATEST);
  }

  lemma FirstStored(policy: Policy, ok: bool) returns (s: State)
    ensures s == State(0, Memory(map[], {LATEST.id}), map[KeyOf(LATEST) := Processing(LEASE * policy.res)],
                       map[0 := if ok then Persisted(LATEST, 0) else Failed(LATEST, 0)], if ok then [LATEST] else [])
    ensures Reaches(policy, Init(0), s)
  {
    s := FirstBegun(policy);
    s := ClaimAndPersist(policy, Init(0), s, 0, ok);
    assert s.handlers.Keys == {0};
  }

  lemma FirstCompleted(policy: Policy) returns (s: State)
    ensures s == State(0, Memory(map[LATEST.id := 0], {}), map[KeyOf(LATEST) := Completed(0)], map[], [LATEST])
    ensures Reaches(policy, Init(0), s)
  {
    s := FirstStored(policy, true);
    s := Go(policy, Init(0), s, Mark(0));
    s := Go(policy, Init(0), s, Complete(0));
  }

  /** The same PDU, validated in the last tick of its window. */
  lemma LastArrival(policy: Policy, at: Time) returns (s: State)
    requires at == (2 * SKEW + 1) * policy.res - 1
    ensures s == State(at, Memory(map[LATEST.id := 0], {}), map[KeyOf(LATEST) := Completed(0)],
                       map[1 := Validated(LATEST, at)], [LATEST])
    ensures Reaches(policy, Init(0), s)
  {
    s := FirstCompleted(policy);
    s := Go(policy, Init(0), s, Tick(at));
    LatestIsIn(policy.res, s.now);
    s := Go(policy, Init(0), s, Arrive(1, LATEST));
  }

  lemma LaterBy(policy: Policy, s: State, ticks: nat) returns (t: State)
    requires Reaches(policy, Init(0), s) && forall h :: h in s.handlers ==> !s.handlers[h].Marked?
    ensures t == s.(now := s.now + ticks) && Reaches(policy, Init(0), t)
  {
    t := s;
    if ticks > 0 {
      t := Go(policy, Init(0), s, Tick(ticks));
    }
  }

  /** It gets past the memory as late as a claim may follow. */
  lemma LastMinute(policy: Policy, at: Time) returns (s: State)
    requires at == (2 * SKEW + 1) * policy.res - 1
    ensures s == State(at + policy.claimDelay, Memory(map[], {LATEST.id}), map[KeyOf(LATEST) := Completed(0)],
                       map[1 := Begun(LATEST, at)], [LATEST])
    ensures Reaches(policy, Init(0), s)
  {
    s := LastArrival(policy, at);
    s := LaterBy(policy, s, policy.claimDelay);
    ForgottenIsAdmitted(policy.res, s.memory, LATEST.id, s.now);
    s := Go(policy, Init(0), s, Begin(1));
    assert s.handlers == map[1 := Begun(LATEST, at)];
  }

  /** Retention that ends before the last claim of the window lets the completed row go too early. */
  lemma ShortRetentionReplays(policy: Policy) returns (s: State)
    requires !KeepsLongEnough(policy)
    ensures Reaches(policy, Init(0), s) && s.stored == [LATEST, LATEST]
  {
    s := LastMinute(policy, (2 * SKEW + 1) * policy.res - 1);
    s := ClaimAndPersist(policy, Init(0), s, 1, true);
  }

  /** A completing statement slower than the memory lets the expired lease be taken over. */
  lemma LateCompleteReplays(policy: Policy) returns (s: State)
    requires policy.completeDelay > MEMORY * policy.res
    ensures Reaches(policy, Init(0), s) && s.stored == [LATEST, LATEST]
  {
    s := FirstStored(policy, true);
    s := Go(policy, Init(0), s, Mark(0));
    s := Go(policy, Init(0), s, Tick(MEMORY * policy.res + 1));
    LatestIsIn(policy.res, s.now);
    ForgottenIsAdmitted(policy.res, s.memory, LATEST.id, s.now);
    s := Intake(policy, Init(0), s, 1, LATEST, true);
  }

  lemma FirstFailed(policy: Policy) returns (s: State)
    ensures s == State(LEASE * policy.res + 1, Memory(map[], {}), map[KeyOf(LATEST) := Processing(LEASE * policy.res)],
                       map[0 := Releasing(LATEST, 0)], [])
    ensures Reaches(policy, Init(0), s)
  {
    s := FirstStored(policy, false);
    s := Go(policy, Init(0), s, Tick(LEASE * policy.res + 1));
    s := Go(policy, Init(0), s, Unmark(0));
  }

  lemma SecondBegun(policy: Policy, now: Time) returns (s: State)
    requires now == LEASE * policy.res + 1
    ensures s == State(now, Memory(map[], {LATEST.id}), map[KeyOf(LATEST) := Processing(now - 1)],
                       map[0 := Releasing(LATEST, 0), 1 := Begun(LATEST, now)], [])
    ensures Reaches(policy, Init(0), s)
  {
    s := FirstFailed(policy);
    LatestIsIn(policy.res, s.now);
    ForgottenIsAdmitted(policy.res, s.memory, LATEST.id, s.now);
    s := ArriveAndBegin(policy, Init(0), s, 1, LATEST);
  }

  lemma TakenOver(policy: Policy, now: Time) returns (s: State)
    requires now == LEASE * policy.res + 1
    ensures s == State(now, Memory(map[], {LATEST.id}), map[KeyOf(LATEST) := Processing(2 * now - 1)],
                       map[0 := Releasing(LATEST, 0), 1 := Persisted(LATEST, now)], [LATEST])
    ensures Reaches(policy, Init(0), s)
  {
    s := SecondBegun(policy, now);
    s := ClaimAndPersist(policy, Init(0), s, 1, true);
  }

  lemma Unguarded(policy: Policy, now: Time) returns (s: State)
    requires policy.releaseDelay >= now == LEASE * policy.res + 1
    ensures s == State(now, Memory(map[LATEST.id := now], {}), map[], map[], [LATEST])
    ensures Reaches(policy, Init(0), s)
  {
    s := TakenOver(policy, now);
    s := Go(policy, Init(0), s, Release(0));
    s := Go(policy, Init(0), s, Mark(1));
    s := Go(policy, Init(0), s, Complete(1));
  }

  /** A release after the lease expired deletes the row of the handler that took over. */
  lemma LateReleaseReplays(policy: Policy) returns (s: State)
    requires policy.releaseDelay > LEASE * policy.res
    ensures Reaches(policy, Init(0), s) && s.stored == [LATEST, LATEST]
  {
    s := Unguarded(policy, LEASE * policy.res + 1);
    s := Go(policy, Init(0), s, Tick(MEMORY * policy.res + 1));
    LatestIsIn(policy.res, s.now);
    ForgottenIsAdmitted(policy.res, s.memory, LATEST.id, s.now);
    s := Intake(policy, Init(0), s, 2, LATEST, true);
  }

  lemma Crashed(policy: Policy, now: Time) returns (s: State)
    requires policy.crashWhilePersisted && now == LEASE * policy.res + 1
    ensures s == State(now, Memory(map[], {}), map[KeyOf(LATEST) := Processing(now - 1)], map[], [LATEST])
    ensures Reaches(policy, Init(0), s)
  {
    s := FirstStored(policy, true);
    s := Go(policy, Init(0), s, Restart);
    s := LaterBy(policy, s, now);
  }

  /** A crash between persisting and completing leaves a lease that expires. */
  lemma CrashReplays(policy: Policy) returns (s: State)
    requires policy.crashWhilePersisted
    ensures Reaches(policy, Init(0), s) && s.stored == [LATEST, LATEST]
  {
    s := Crashed(policy, LEASE * policy.res + 1);
    LatestIsIn(policy.res, s.now);
    ForgottenIsAdmitted(policy.res, s.memory, LATEST.id, s.now);
    s := Intake(policy, Init(0), s, 1, LATEST, true);
  }

  /** No run of the deployment, from any starting time, ever stores a PDU again. */
  ghost predicate ReplaySafe(policy: Policy) {
    forall start: Time, steps: seq<Step> :: Allowed(policy, Init(start), steps) ==>
                                              NoReplay(Run(policy, Init(start), steps).stored)
  }

  /** The guard is safe exactly for the deployments within the bounds. */
  lemma SafeExactlyWithinBounds(policy: Policy)
    ensures ReplaySafe(policy) <==> WithinBounds(policy)
  {
    if WithinBounds(policy) {
      forall start: Time, steps: seq<Step> | Allowed(policy, Init(start), steps)
        ensures NoReplay(Run(policy, Init(start), steps).stored)
      {
        ReplaySafety(policy, start, steps);
      }
    } else {
      var s: State;
      if !KeepsLongEnough(policy) {
        s := ShortRetentionReplays(policy);
      } else if policy.completeDelay > MEMORY * policy.res {
        s := LateCompleteReplays(policy);
      } else if policy.releaseDelay > LEASE * policy.res {
        s := LateReleaseReplays(policy);
      } else {
        s := CrashReplays(policy);
      }
      var steps :| Allowed(policy, Init(0), steps) && Run(policy, Init(0), steps) == s;
      assert KeyOf(s.stored[0]) == KeyOf(s.stored[1]);
      assert !NoReplay(Run(policy, Init(0), steps).stored);
    }
  }

  /** The two hours the store keeps its rows are enough only on a clock of whole seconds, and then
      only if validation and claim read the same second. */
  lemma ShippedRetentionIsShort(policy: Policy)
    requires policy.retention == RETENTION * policy.res
    ensures ReplaySafe(policy) <==>
            && policy.res == 1 && policy.claimDelay == 0 && policy.completeDelay <= MEMORY
              && policy.releaseDelay <= LEASE
            && !policy.crashWhilePersisted
  {
    SafeExactlyWithinBounds(policy);
  }

  /** One second more is enough on every clock, for claims that follow within a tick. */
  lemma OneMoreSecondIsEnough(policy: Policy)
    requires policy.retention == (RETENTION + 1) * policy.res
    requires policy.completeDelay <= MEMORY * policy.res && policy.releaseDelay <= LEASE * policy.res
             && !policy.crashWhilePersisted
    ensures ReplaySafe(policy) <==> policy.claimDelay <= 1
  {
    SafeExactlyWithinBounds(policy);
  }
}
