/**
 Every run of one receiving process: any number of handlers of
 `SaveIncomingPDU` interleave section by section, persists fail, the cache
 evicts, the process restarts, the clock advances in ticks of any length.

 The main results are `ReplaySafety` and `SafeExactlyWithinBounds`: the same PDU
 is never stored twice exactly when completed rows are kept past the whole window,
 and the delays between sections stay within the other time constants of the guard.
 */
module ReplayRuns {
  import opened Wrappers
  import opened ReplayGuard

  /** Where one handler stands between its atomic sections. */
  datatype Handler =
    | Validated(pdu: Pdu, at: Time)
    | Begun(pdu: Pdu, at: Time)
    | Refused(pdu: Pdu)
    | Claimed(pdu: Pdu, leaseFrom: Time)
    | Failed(pdu: Pdu, leaseFrom: Time)
    | Releasing(pdu: Pdu, leaseFrom: Time)
    | Persisted(pdu: Pdu, leaseFrom: Time)
    | Marked(pdu: Pdu, leaseFrom: Time, markedAt: Time)

  /** `stored` is the history of every PDU ever persisted, oldest first. */
  datatype State = State(now: Time, memory: Memory, rows: Table, handlers: map<nat, Handler>, stored: seq<Pdu>)

  function Init(now: Time): State {
    State(now, Memory(map[], {}), map[], map[], [])
  }

  /**
   What a deployment allows. `res` is the grain of the clock, in ticks a second, and
   `retention` how long completed rows are kept. The delays are the ticks between
   validation and claim, between the in-memory mark and the completing statement, and
   between computing a lease and releasing it; last, whether the process may die
   between persisting and completing.
   */
  datatype Policy = Policy(res: Resolution, retention: nat, claimDelay: nat, completeDelay: nat, releaseDelay: nat,
                           crashWhilePersisted: bool)

  datatype Step =
    | Tick(ticks: Time)
    | Arrive(h: nat, pdu: Pdu)
    | Begin(h: nat)
    | Claim(h: nat, leaseFrom: Time)
    | ClaimError(h: nat)
    | Drop(h: nat)
    | Persist(h: nat, ok: bool)
    | Unmark(h: nat)
    | Release(h: nat)
    | Mark(h: nat)
    | Complete(h: nat)
    | Restart

  predicate Enabled(policy: Policy, s: State, step: Step) {
    match step
    case Tick(ticks) =>
      ticks > 0
      && forall h :: h in s.handlers && s.handlers[h].Marked? ==>
                       s.now + ticks <= s.handlers[h].markedAt + policy.completeDelay
    case Arrive(h, pdu) => h !in s.handlers && InWindow(policy.res, pdu, s.now)
    case Begin(h) => h in s.handlers && s.handlers[h].Validated?
    case Claim(h, leaseFrom) =>
      h in s.handlers && s.handlers[h].Begun?
      && s.handlers[h].at <= leaseFrom <= s.now <= s.handlers[h].at + policy.claimDelay
    case ClaimError(h) => h in s.handlers && s.handlers[h].Begun?
    case Drop(h) => h in s.handlers && s.handlers[h].Refused?
    case Persist(h, _) => h in s.handlers && s.handlers[h].Claimed?
    case Unmark(h) => h in s.handlers && s.handlers[h].Failed?
    case Release(h) =>
      h in s.handlers && s.handlers[h].Releasing? && s.now <= s.handlers[h].leaseFrom + policy.releaseDelay
    case Mark(h) => h in s.handlers && s.handlers[h].Persisted?
    case Complete(h) => h in s.handlers && s.handlers[h].Marked?
    case Restart =>
      policy.crashWhilePersisted
      || forall h :: h in s.handlers ==> !s.handlers[h].Persisted? && !s.handlers[h].Marked?
  }

  function Apply(policy: Policy, s: State, step: Step): State
    requires Enabled(policy, s, step)
  {
    match step
    case Tick(ticks) => s.(now := s.now + ticks)
    case Arrive(h, pdu) => s.(handlers := s.handlers[h := Validated(pdu, s.now)])
    case Begin(h) =>
      var Validated(pdu, at) := s.handlers[h];
      s.(memory := BeginMemory(policy.res, s.memory, pdu.id, s.now),
         handlers := if Admit(policy.res, s.memory, pdu.id, s.now) == Admitted
                     then s.handlers[h := Begun(pdu, at)] else s.handlers - {h})
    case Claim(h, leaseFrom) =>
      var Begun(pdu, _) := s.handlers[h];
      s.(rows := ClaimRows(s.rows, KeyOf(pdu), s.now, leaseFrom + LEASE * policy.res, policy.retention),
         handlers := s.handlers[h := if Claimable(s.rows, KeyOf(pdu), s.now, policy.retention)
                                     then Claimed(pdu, leaseFrom) else Refused(pdu)])
    case ClaimError(h) => s.(handlers := s.handlers[h := Refused(s.handlers[h].pdu)])
    case Drop(h) =>
      s.(memory := FinishMemory(s.memory, s.handlers[h].pdu.id, false, s.now), handlers := s.handlers - {h})
    case Persist(h, ok) =>
      var Claimed(pdu, leaseFrom) := s.handlers[h];
      if ok then s.(stored := s.stored + [pdu], handlers := s.handlers[h := Persisted(pdu, leaseFrom)])
      else s.(handlers := s.handlers[h := Failed(pdu, leaseFrom)])
    case Unmark(h) =>
      var Failed(pdu, leaseFrom) := s.handlers[h];
      s.(memory := FinishMemory(s.memory, pdu.id, false, s.now),
         handlers := s.handlers[h := Releasing(pdu, leaseFrom)])
    case Release(h) =>
      s.(rows := ReleaseRows(s.rows, KeyOf(s.handlers[h].pdu)), handlers := s.handlers - {h})
    case Mark(h) =>
      var Persisted(pdu, leaseFrom) := s.handlers[h];
      s.(memory := FinishMemory(s.memory, pdu.id, true, s.now),
         handlers := s.handlers[h := Marked(pdu, leaseFrom, s.now)])
    case Complete(h) =>
      s.(rows := CompleteRows(s.rows, KeyOf(s.handlers[h].pdu), s.now), handlers := s.handlers - {h})
    case Restart => s.(memory := Memory(map[], {}), handlers := map[])
  }

  predicate Allowed(policy: Policy, s: State, steps: seq<Step>)
    decreases |steps|
  {
    steps == [] || (Enabled(policy, s, steps[0]) && Allowed(policy, Apply(policy, s, steps[0]), steps[1..]))
  }

  function Run(policy: Policy, s: State, steps: seq<Step>): State
    requires Allowed(policy, s, steps)
    decreases |steps|
  {
    if steps == [] then s else Run(policy, Apply(policy, s, steps[0]), steps[1..])
  }

  /** A key stored again carries a strictly later creation time. */
  predicate NoReplay(stored: seq<Pdu>) {
    forall i, j :: 0 <= i < j < |stored| && KeyOf(stored[i]) == KeyOf(stored[j]) ==>
                     stored[i].createdAt < stored[j].createdAt
  }

  // ----- The window in ticks

  /** The first clock value at which a PDU is in the window. */
  function Opens(res: Resolution, pdu: Pdu): Time { (pdu.createdAt - SKEW) * res }

  /** The first clock value at which it no longer is. */
  function Closes(res: Resolution, pdu: Pdu): Time { (pdu.createdAt + SKEW + 1) * res }

  lemma FloorBelow(now: Time, res: Resolution, n: int)
    ensures now / res < n <==> now < n * res
  {
    var q, r := now / res, now % res;
    assert now == q * res + r;
    if q < n {
      assert (q + 1) * res <= n * res;
    } else {
      assert n * res <= q * res;
    }
  }

  /** Reading the clock in whole seconds keeps the window open for all of its last second. */
  lemma WindowInTicks(res: Resolution, pdu: Pdu, now: Time)
    ensures InWindow(res, pdu, now) <==> Opens(res, pdu) <= now < Closes(res, pdu)
    ensures Closes(res, pdu) == Opens(res, pdu) + (2 * SKEW + 1) * res
  {
    FloorBelow(now, res, pdu.createdAt - SKEW);
    FloorBelow(now, res, pdu.createdAt + SKEW + 1);
  }

  lemma LaterClose(res: Resolution, p: Pdu, q: Pdu)
    requires Closes(res, p) < Closes(res, q)
    ensures p.createdAt < q.createdAt
  {
  }

  // ----- The invariant

  /** Completed rows outlive the window of what they stand for, and the claim that follows its last validation. */
  predicate KeepsLongEnough(policy: Policy) {
    policy.retention >= 2 * SKEW * policy.res + (policy.res - 1) + policy.claimDelay
  }

  predicate WithinBounds(policy: Policy) {
    && KeepsLongEnough(policy) && policy.completeDelay <= MEMORY * policy.res
      && policy.releaseDelay <= LEASE * policy.res
    && !policy.crashWhilePersisted
  }

  /** The id of this handler sits in the processing set on its behalf. */
  predicate OwnsId(x: Handler) {
    x.Begun? || x.Refused? || x.Claimed? || x.Failed? || x.Persisted?
  }

  /** The row of this handler's key is leased to it. */
  predicate HoldsRow(x: Handler, now: Time, lease: Time) {
    x.Claimed? || x.Failed? || x.Persisted? || x.Marked? || (x.Releasing? && now <= x.leaseFrom + lease)
  }

  predicate IdsOwned(s: State) {
    && s.memory.processed.Keys !! s.memory.processing
    && (forall h :: h in s.handlers && OwnsId(s.handlers[h]) ==> s.handlers[h].pdu.id in s.memory.processing)
    && (forall h, g :: h in s.handlers && g in s.handlers && h != g
                       && OwnsId(s.handlers[h]) && OwnsId(s.handlers[g]) ==>
                         s.handlers[h].pdu.id != s.handlers[g].pdu.id)
  }

  predicate RowsHeld(s: State, lease: Time) {
    && (forall h :: h in s.handlers && HoldsRow(s.handlers[h], s.now, lease) ==>
          KeyOf(s.handlers[h].pdu) in s.rows
          && s.rows[KeyOf(s.handlers[h].pdu)] == Processing(s.handlers[h].leaseFrom + lease))
    && (forall h, g :: h in s.handlers && g in s.handlers && h != g
                       && HoldsRow(s.handlers[h], s.now, lease) && HoldsRow(s.handlers[g], s.now, lease) ==>
                         KeyOf(s.handlers[h].pdu) != KeyOf(s.handlers[g].pdu))
  }

  predicate MarksRemembered(s: State, memory: Time) {
    forall h :: h in s.handlers && s.handlers[h].Marked? ==>
      s.handlers[h].pdu.id in s.memory.processed
      && s.memory.processed[s.handlers[h].pdu.id] == s.handlers[h].markedAt
      && s.now <= s.handlers[h].markedAt + memory
  }

  predicate PastWindow(res: Resolution, s: State) {
    && (forall h :: h in s.handlers ==> Opens(res, s.handlers[h].pdu) <= s.now)
    && (forall h :: h in s.handlers && (s.handlers[h].Validated? || s.handlers[h].Begun?) ==>
          s.handlers[h].at < Closes(res, s.handlers[h].pdu) && s.handlers[h].at <= s.now)
    && (forall i :: 0 <= i < |s.stored| ==> Opens(res, s.stored[i]) <= s.now)
  }

  /** This handler has stored under the key and not yet completed the row. */
  predicate Storing(x: Handler, key: Key) {
    (x.Persisted? || x.Marked?) && KeyOf(x.pdu) == key
  }

  predicate InFlight(s: State, key: Key) {
    exists h :: h in s.handlers && Storing(s.handlers[h], key)
  }

  /** Being stored, or recorded since its window opened, or past every claim its window allows. */
  predicate Guarded(policy: Policy, s: State, pdu: Pdu) {
    || InFlight(s, KeyOf(pdu))
    || (KeyOf(pdu) in s.rows && s.rows[KeyOf(pdu)].Completed?
        && Opens(policy.res, pdu) <= s.rows[KeyOf(pdu)].processedAt)
    || Closes(policy.res, pdu) + policy.claimDelay <= s.now
  }

  predicate StoredGuarded(policy: Policy, s: State) {
    forall i :: 0 <= i < |s.stored| ==> Guarded(policy, s, s.stored[i])
  }

  /** Whoever may still store under a key is newer than everything stored there. */
  predicate ClaimsNewer(s: State) {
    forall h, i :: h in s.handlers && (s.handlers[h].Claimed? || s.handlers[h].Failed?) && 0 <= i < |s.stored|
                   && KeyOf(s.stored[i]) == KeyOf(s.handlers[h].pdu) ==>
                     s.stored[i].createdAt < s.handlers[h].pdu.createdAt
  }

  predicate Inv(policy: Policy, s: State) {
    && IdsOwned(s) && RowsHeld(s, LEASE * policy.res) && MarksRemembered(s, MEMORY * policy.res)
      && PastWindow(policy.res, s)
    && StoredGuarded(policy, s) && ClaimsNewer(s) && NoReplay(s.stored)
  }

  /** A guard survives any step that keeps its row and the handlers storing under its key. */
  lemma GuardCarries(policy: Policy, s: State, t: State, pdu: Pdu)
    requires KeepsLongEnough(policy) && Guarded(policy, s, pdu) && s.now <= t.now
    requires forall h :: h in s.handlers && Storing(s.handlers[h], KeyOf(pdu)) ==>
                           h in t.handlers && Storing(t.handlers[h], KeyOf(pdu))
    requires KeyOf(pdu) in s.rows && s.rows[KeyOf(pdu)].Completed?
             && t.now <= s.rows[KeyOf(pdu)].processedAt + policy.retention ==>
               KeyOf(pdu) in t.rows && t.rows[KeyOf(pdu)] == s.rows[KeyOf(pdu)]
    ensures Guarded(policy, t, pdu)
  {
    WindowInTicks(policy.res, pdu, t.now);
    if InFlight(s, KeyOf(pdu)) {
      var h :| h in s.handlers && Storing(s.handlers[h], KeyOf(pdu));
      assert h in t.handlers && Storing(t.handlers[h], KeyOf(pdu));
    }
  }

  /** A step that keeps the rows, or only drops outdated ones, keeps every stored PDU guarded. */
  lemma GuardsCarry(policy: Policy, s: State, t: State)
    requires KeepsLongEnough(policy) && StoredGuarded(policy, s) && s.now <= t.now && t.stored == s.stored
    requires forall h, key :: h in s.handlers && Storing(s.handlers[h], key) ==>
                                h in t.handlers && Storing(t.handlers[h], key)
    requires forall key ::
               (key in s.rows && s.rows[key].Completed? && t.now <= s.rows[key].processedAt + policy.retention) ==>
                 key in t.rows && t.rows[key] == s.rows[key]
    ensures StoredGuarded(policy, t)
  {
    forall i | 0 <= i < |t.stored| ensures Guarded(policy, t, t.stored[i]) {
      GuardCarries(policy, s, t, s.stored[i]);
    }
  }

  lemma TickKeepsRows(s: State, later: Time, lease: Time)
    requires RowsHeld(s, lease) && s.now <= later
    ensures RowsHeld(s.(now := later), lease)
  {
    assert forall h :: h in s.handlers && HoldsRow(s.handlers[h], later, lease) ==>
             HoldsRow(s.handlers[h], s.now, lease);
  }

  lemma TickKeepsInv(policy: Policy, s: State, ticks: Time)
    requires WithinBounds(policy) && Inv(policy, s) && Enabled(policy, s, Tick(ticks))
    ensures Inv(policy, Apply(policy, s, Tick(ticks)))
  {
    var t := Apply(policy, s, Tick(ticks));
    TickKeepsRows(s, t.now, LEASE * policy.res);
    GuardsCarry(policy, s, t);
  }

  // ----- Steps that move one handler and touch only the memory

  datatype Next = Gone | Becomes(handler: Handler)

  function Move(s: State, h: nat, next: Next, memory: Memory): State {
    s.(memory := memory, handlers := if next.Gone? then s.handlers - {h} else s.handlers[h := next.handler])
  }

  /** The ids of the others stay in the processing set, and a new owner found its id free. */
  predicate MovesId(s: State, h: nat, next: Next, memory: Memory) {
    && memory.processed.Keys !! memory.processing
    && (forall id :: id in s.memory.processing ==>
          id in memory.processing || (h in s.handlers && OwnsId(s.handlers[h]) && id == s.handlers[h].pdu.id))
    && (next.Becomes? && OwnsId(next.handler) ==>
          next.handler.pdu.id in memory.processing
          && ((h in s.handlers && OwnsId(s.handlers[h]) && s.handlers[h].pdu.id == next.handler.pdu.id)
              || next.handler.pdu.id !in s.memory.processing))
  }

  /** A row is held only by whoever held it before. */
  predicate MovesRow(s: State, h: nat, next: Next, lease: Time) {
    next.Becomes? && HoldsRow(next.handler, s.now, lease) ==>
      h in s.handlers && HoldsRow(s.handlers[h], s.now, lease)
      && s.handlers[h].pdu == next.handler.pdu && s.handlers[h].leaseFrom == next.handler.leaseFrom
  }

  predicate MovesMark(s: State, h: nat, next: Next, memory: Memory, kept: Time) {
    && (forall id :: id in s.memory.processed && s.now <= s.memory.processed[id] + kept ==>
          id in memory.processed && memory.processed[id] == s.memory.processed[id])
    && (next.Becomes? && next.handler.Marked? ==>
          next.handler.pdu.id in memory.processed
            && memory.processed[next.handler.pdu.id] == next.handler.markedAt == s.now)
  }

  predicate MovesPdu(res: Resolution, s: State, h: nat, next: Next) {
    && (next.Becomes? ==> Opens(res, next.handler.pdu) <= s.now)
    && (next.Becomes? && (next.handler.Validated? || next.handler.Begun?) ==>
          next.handler.at < Closes(res, next.handler.pdu) && next.handler.at <= s.now)
    && (next.Becomes? && (next.handler.Claimed? || next.handler.Failed?) ==>
          h in s.handlers && (s.handlers[h].Claimed? || s.handlers[h].Failed?) && s.handlers[h].pdu == next.handler.pdu)
    && (h in s.handlers && (s.handlers[h].Persisted? || s.handlers[h].Marked?) ==>
          next.Becomes? && Storing(next.handler, KeyOf(s.handlers[h].pdu)))
  }

  lemma MoveKeepsOwners(s: State, h: nat, next: Next, memory: Memory, kept: Time)
    requires IdsOwned(s) && MarksRemembered(s, kept) && kept >= 0
    requires MovesId(s, h, next, memory) && MovesMark(s, h, next, memory, kept)
    ensures IdsOwned(Move(s, h, next, memory)) && MarksRemembered(Move(s, h, next, memory), kept)
  {
  }

  lemma MoveKeepsRows(s: State, h: nat, next: Next, memory: Memory, lease: Time)
    requires RowsHeld(s, lease) && MovesRow(s, h, next, lease)
    ensures RowsHeld(Move(s, h, next, memory), lease)
  {
  }

  lemma MoveKeepsGuards(policy: Policy, s: State, h: nat, next: Next, memory: Memory)
    requires KeepsLongEnough(policy) && PastWindow(policy.res, s) && StoredGuarded(policy, s) && ClaimsNewer(s)
    requires MovesPdu(policy.res, s, h, next)
    ensures PastWindow(policy.res, Move(s, h, next, memory))
    ensures StoredGuarded(policy, Move(s, h, next, memory)) && ClaimsNewer(Move(s, h, next, memory))
  {
    GuardsCarry(policy, s, Move(s, h, next, memory));
  }

  lemma MoveKeepsInv(policy: Policy, s: State, h: nat, next: Next, memory: Memory)
    requires WithinBounds(policy) && Inv(policy, s)
    requires MovesId(s, h, next, memory) && MovesRow(s, h, next, LEASE * policy.res)
    requires MovesMark(s, h, next, memory, MEMORY * policy.res) && MovesPdu(policy.res, s, h, next)
    ensures Inv(policy, Move(s, h, next, memory))
  {
    MoveKeepsOwners(s, h, next, memory, MEMORY * policy.res);
    MoveKeepsRows(s, h, next, memory, LEASE * policy.res);
    MoveKeepsGuards(policy, s, h, next, memory);
  }

  /** The handler and the memory after a step that leaves rows, clock and history alone. */
  function Moved(policy: Policy, s: State, step: Step): (r: (Next, Memory))
    requires Enabled(policy, s, step) && IsMove(step)
  {
    var t := Apply(policy, s, step);
    (if step.h in t.handlers then Becomes(t.handlers[step.h]) else Gone, t.memory)
  }

  predicate IsMove(step: Step) {
    step.Arrive? || step.Begin? || step.ClaimError? || step.Drop? || step.Unmark? || step.Mark?
    || (step.Persist? && !step.ok)
  }

  lemma StepIsMove(policy: Policy, s: State, step: Step)
    requires Enabled(policy, s, step) && IsMove(step)
    ensures var (next, memory) := Moved(policy, s, step); Apply(policy, s, step) == Move(s, step.h, next, memory)
  {
  }

  lemma StepMovesId(policy: Policy, s: State, step: Step)
    requires IdsOwned(s) && MarksRemembered(s, MEMORY * policy.res) && Enabled(policy, s, step) && IsMove(step)
    ensures var (next, memory) := Moved(policy, s, step);
            MovesId(s, step.h, next, memory) && MovesMark(s, step.h, next, memory, MEMORY * policy.res)
  {
    assert step.h in s.handlers && OwnsId(s.handlers[step.h]) ==> s.handlers[step.h].pdu.id in s.memory.processing;
  }

  lemma StepMovesRow(policy: Policy, s: State, step: Step)
    requires WithinBounds(policy) && Inv(policy, s) && Enabled(policy, s, step) && IsMove(step)
    ensures var (next, memory) := Moved(policy, s, step);
            MovesRow(s, step.h, next, LEASE * policy.res) && MovesPdu(policy.res, s, step.h, next)
  {
    if step.Arrive? {
      WindowInTicks(policy.res, step.pdu, s.now);
    }
  }

  lemma MemoryStepKeepsInv(policy: Policy, s: State, step: Step)
    requires WithinBounds(policy) && Inv(policy, s) && Enabled(policy, s, step) && IsMove(step)
    ensures Inv(policy, Apply(policy, s, step))
  {
    var (next, memory) := Moved(policy, s, step);
    StepIsMove(policy, s, step);
    StepMovesId(policy, s, step);
    StepMovesRow(policy, s, step);
    MoveKeepsInv(policy, s, step.h, next, memory);
  }

  // ----- Steps on the table and the history

  /** Nobody else holds the row of a claim that succeeds. */
  lemma ClaimIsExclusive(policy: Policy, s: State, h: nat, leaseFrom: Time, g: nat)
    requires WithinBounds(policy) && Inv(policy, s) && Enabled(policy, s, Claim(h, leaseFrom))
    requires Claimable(s.rows, KeyOf(s.handlers[h].pdu), s.now, policy.retention)
    requires g in s.handlers && HoldsRow(s.handlers[g], s.now, LEASE * policy.res)
    ensures KeyOf(s.handlers[g].pdu) != KeyOf(s.handlers[h].pdu)
  {
    assert OwnsId(s.handlers[h]);
  }

  /** The claim finds every PDU stored under its key either completed and outdated, or past the window. */
  lemma ClaimIsNewer(policy: Policy, s: State, h: nat, leaseFrom: Time, i: nat)
    requires WithinBounds(policy) && Inv(policy, s) && Enabled(policy, s, Claim(h, leaseFrom))
    requires Claimable(s.rows, KeyOf(s.handlers[h].pdu), s.now, policy.retention)
    requires i < |s.stored| && KeyOf(s.stored[i]) == KeyOf(s.handlers[h].pdu)
    ensures s.stored[i].createdAt < s.handlers[h].pdu.createdAt
  {
    assert Guarded(policy, s, s.stored[i]);
    if InFlight(s, KeyOf(s.stored[i])) {
      var g :| g in s.handlers && Storing(s.handlers[g], KeyOf(s.stored[i]));
      ClaimIsExclusive(policy, s, h, leaseFrom, g);
    }
    WindowInTicks(policy.res, s.stored[i], s.now);
    LaterClose(policy.res, s.stored[i], s.handlers[h].pdu);
  }

  lemma ClaimKeepsRows(policy: Policy, s: State, h: nat, leaseFrom: Time)
    requires Enabled(policy, s, Claim(h, leaseFrom)) && RowsHeld(s, LEASE * policy.res)
    requires Claimable(s.rows, KeyOf(s.handlers[h].pdu), s.now, policy.retention) ==>
               forall g :: g in s.handlers && HoldsRow(s.handlers[g], s.now, LEASE * policy.res) ==>
                             KeyOf(s.handlers[g].pdu) != KeyOf(s.handlers[h].pdu)
    ensures RowsHeld(Apply(policy, s, Claim(h, leaseFrom)), LEASE * policy.res)
  {
  }

  lemma ClaimKeepsNewer(policy: Policy, s: State, h: nat, leaseFrom: Time)
    requires WithinBounds(policy) && Inv(policy, s) && Enabled(policy, s, Claim(h, leaseFrom))
    ensures ClaimsNewer(Apply(policy, s, Claim(h, leaseFrom)))
  {
    var t := Apply(policy, s, Claim(h, leaseFrom));
    forall i | 0 <= i < |s.stored| && t.handlers[h].Claimed? && KeyOf(s.stored[i]) == KeyOf(s.handlers[h].pdu)
      ensures s.stored[i].createdAt < t.handlers[h].pdu.createdAt
    {
      ClaimIsNewer(policy, s, h, leaseFrom, i);
    }
  }

  lemma ClaimKeepsOwners(policy: Policy, s: State, h: nat, leaseFrom: Time)
    requires Enabled(policy, s, Claim(h, leaseFrom)) && IdsOwned(s) && MarksRemembered(s, MEMORY * policy.res)
             && PastWindow(policy.res, s)
    ensures var t := Apply(policy, s, Claim(h, leaseFrom));
            IdsOwned(t) && MarksRemembered(t, MEMORY * policy.res) && PastWindow(policy.res, t)
  {
  }

  lemma ClaimKeepsInv(policy: Policy, s: State, h: nat, leaseFrom: Time)
    requires WithinBounds(policy) && Inv(policy, s) && Enabled(policy, s, Claim(h, leaseFrom))
    ensures Inv(policy, Apply(policy, s, Claim(h, leaseFrom)))
  {
    if Claimable(s.rows, KeyOf(s.handlers[h].pdu), s.now, policy.retention) {
      forall g | g in s.handlers && HoldsRow(s.handlers[g], s.now, LEASE * policy.res)
        ensures KeyOf(s.handlers[g].pdu) != KeyOf(s.handlers[h].pdu)
      {
        ClaimIsExclusive(policy, s, h, leaseFrom, g);
      }
    }
    ClaimKeepsOwners(policy, s, h, leaseFrom);
    ClaimKeepsRows(policy, s, h, leaseFrom);
    ClaimKeepsNewer(policy, s, h, leaseFrom);
    GuardsCarry(policy, s, Apply(policy, s, Claim(h, leaseFrom)));
  }

  lemma StoreKeepsOwners(policy: Policy, s: State, h: nat)
    requires Enabled(policy, s, Persist(h, true)) && IdsOwned(s) && RowsHeld(s, LEASE * policy.res)
             && MarksRemembered(s, MEMORY * policy.res)
    ensures var t := Apply(policy, s, Persist(h, true));
            IdsOwned(t) && RowsHeld(t, LEASE * policy.res) && MarksRemembered(t, MEMORY * policy.res)
  {
  }

  lemma StoreKeepsNewer(policy: Policy, s: State, h: nat)
    requires Enabled(policy, s, Persist(h, true)) && RowsHeld(s, LEASE * policy.res) && ClaimsNewer(s)
             && NoReplay(s.stored)
    ensures var t := Apply(policy, s, Persist(h, true)); ClaimsNewer(t) && NoReplay(t.stored)
  {
    assert HoldsRow(s.handlers[h], s.now, LEASE * policy.res);
    assert forall g :: g in s.handlers && g != h && HoldsRow(s.handlers[g], s.now, LEASE * policy.res) ==>
                         KeyOf(s.handlers[g].pdu) != KeyOf(s.handlers[h].pdu);
  }

  lemma StoreKeepsInv(policy: Policy, s: State, h: nat)
    requires WithinBounds(policy) && Inv(policy, s) && Enabled(policy, s, Persist(h, true))
    ensures Inv(policy, Apply(policy, s, Persist(h, true)))
  {
    var t := Apply(policy, s, Persist(h, true));
    StoreKeepsOwners(policy, s, h);
    StoreKeepsNewer(policy, s, h);
    assert Storing(t.handlers[h], KeyOf(s.handlers[h].pdu));
    forall i | 0 <= i < |t.stored| ensures Guarded(policy, t, t.stored[i]) {
      if i < |s.stored| {
        GuardCarries(policy, s, t, s.stored[i]);
      }
    }
  }

  lemma CompleteKeepsInv(policy: Policy, s: State, h: nat)
    requires WithinBounds(policy) && Inv(policy, s) && Enabled(policy, s, Complete(h))
    ensures Inv(policy, Apply(policy, s, Complete(h)))
  {
    var t := Apply(policy, s, Complete(h));
    assert HoldsRow(s.handlers[h], s.now, LEASE * policy.res);
    forall i | 0 <= i < |t.stored| ensures Guarded(policy, t, t.stored[i]) {
      if KeyOf(s.stored[i]) != KeyOf(s.handlers[h].pdu) {
        GuardCarries(policy, s, t, s.stored[i]);
      }
    }
  }

  lemma ReleaseKeepsInv(policy: Policy, s: State, h: nat)
    requires WithinBounds(policy) && Inv(policy, s) && Enabled(policy, s, Release(h))
    ensures Inv(policy, Apply(policy, s, Release(h)))
  {
    assert HoldsRow(s.handlers[h], s.now, LEASE * policy.res);
    GuardsCarry(policy, s, Apply(policy, s, Release(h)));
  }

  lemma RestartKeepsInv(policy: Policy, s: State)
    requires WithinBounds(policy) && Inv(policy, s) && Enabled(policy, s, Restart)
    ensures Inv(policy, Apply(policy, s, Restart))
  {
    GuardsCarry(policy, s, Apply(policy, s, Restart));
  }

  /** Every step allowed within the bounds keeps the invariant. */
  lemma StepKeepsInv(policy: Policy, s: State, step: Step)
    requires WithinBounds(policy) && Inv(policy, s) && Enabled(policy, s, step)
    ensures Inv(policy, Apply(policy, s, step))
  {
    if IsMove(step) {
      MemoryStepKeepsInv(policy, s, step);
    } else {
      match step
      case Tick(ticks) => TickKeepsInv(policy, s, ticks);
      case Claim(h, leaseFrom) => ClaimKeepsInv(policy, s, h, leaseFrom);
      case Persist(h, ok) => StoreKeepsInv(policy, s, h);
      case Release(h) => ReleaseKeepsInv(policy, s, h);
      case Complete(h) => CompleteKeepsInv(policy, s, h);
      case Restart => RestartKeepsInv(policy, s);
    }
  }

  lemma {:induction false} RunKeepsInv(policy: Policy, s: State, steps: seq<Step>)
    requires WithinBounds(policy) && Inv(policy, s) && Allowed(policy, s, steps)
    ensures Inv(policy, Run(policy, s, steps))
    decreases |steps|
  {
    if steps != [] {
      StepKeepsInv(policy, s, steps[0]);
      RunKeepsInv(policy, Apply(policy, s, steps[0]), steps[1..]);
    }
  }

  /**
   Replay safety over every run within the bounds: a second store under the same
   origin and id has a later creation time, so the same PDU is never stored twice.
   */
  lemma ReplaySafety(policy: Policy, start: Time, steps: seq<Step>)
    requires WithinBounds(policy) && Allowed(policy, Init(start), steps)
    ensures NoReplay(Run(policy, Init(start), steps).stored)
    ensures forall i, j :: 0 <= i < j < |Run(policy, Init(start), steps).stored| ==>
      Run(policy, Init(start), steps).stored[i] != Run(policy, Init(start), steps).stored[j]
    ensures Run(policy, Init(start), steps).memory.processed.Keys !! Run(policy, Init(start), steps).memory.processing
  {
    RunKeepsInv(policy, Init(start), steps);
  }
}
