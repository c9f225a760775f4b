/**
 Every run of the outbound queue: any number of workers claim, send, delete and
 reschedule, stall and crash, while new PDUs are enqueued and the clock advances.
 */
module QueueRuns {
  import opened Wrappers
  import opened FederationQueue
  import ReplayGuard

  /** How far a worker has come with its item. */
  datatype Phase = Holding | InSend(since: Time) | Delivered(since: Time) | Undelivered(since: Time)

  datatype Worker = Worker(item: Item, claimedAt: Time, phase: Phase)

  /** What a run has done so far; none of it is visible to the code. */
  datatype History = History(
    tokens: set<Token>,              // every lease token ever issued
    contents: map<nat, Content>,     // what was enqueued under each id
    removed: set<nat>,               // ids deleted from the table
    sent: set<(nat, Token)>,         // sends that succeeded
    scheduled: map<nat, Time>,       // seconds of backoff scheduled for each id
    reclaimed: map<nat, nat>         // how often a lease on each id expired
  )

  datatype State = State(now: Time, rows: Table, next: nat, workers: map<nat, Worker>, past: History)

  function Init(now: Time): State {
    State(now, map[], 1, map[], History({}, map[], {}, {}, map[], map[]))
  }

  /** Seconds a worker gives itself to begin sending after its claim, and to finish the send. */
  datatype Policy = Unlimited | Budget(claim: nat, send: nat)

  datatype Step =
    | Tick(seconds: Time)
    | Enqueue(content: Content)
    | Claim(w: nat, id: nat, token: Token)
    | StartSend(w: nat)
    | EndSend(w: nat, ok: bool)
    | Delete(w: nat)
    | Reschedule(w: nat)
    | Crash(w: nat)

  predicate InTime(policy: Policy, worker: Worker, now: Time) {
    policy.Unlimited?
    || match worker.phase
       case Holding => now <= worker.claimedAt + policy.claim
       case _ => now <= worker.phase.since + policy.send
  }

  predicate Enabled(policy: Policy, s: State, step: Step) {
    match step
    case Tick(seconds) =>
      seconds > 0 && forall w :: w in s.workers ==> InTime(policy, s.workers[w], s.now + seconds)
    case Enqueue(_) => true
    case Claim(w, id, token) =>
      w !in s.workers && IsNext(s.rows, id, s.now) && token != NO_TOKEN && token !in s.past.tokens
    case StartSend(w) => w in s.workers && s.workers[w].phase.Holding?
    case EndSend(w, _) => w in s.workers && s.workers[w].phase.InSend?
    case Delete(w) => w in s.workers && s.workers[w].phase.Delivered?
    case Reschedule(w) => w in s.workers && s.workers[w].phase.Undelivered?
    case Crash(w) => w in s.workers
  }

  function CountOf(m: map<nat, nat>, id: nat): nat { if id in m then m[id] else 0 }

  function SecondsOf(m: map<nat, Time>, id: nat): Time { if id in m then m[id] else 0 }

  function Apply(policy: Policy, s: State, step: Step): State
    requires Enabled(policy, s, step)
  {
    match step
    case Tick(seconds) => s.(now := s.now + seconds)
    case Enqueue(content) =>
      s.(rows := s.rows[s.next := FreshRow(content, s.now)], next := s.next + 1,
         past := s.past.(contents := s.past.contents[s.next := content]))
    case Claim(w, id, token) =>
      var row := ClaimedRow(s.rows[id], s.now, token);
      s.(rows := s.rows[id := row],
         workers := s.workers[w := Worker(Item(id, row), s.now, Holding)],
         past := s.past.(tokens := s.past.tokens + {token},
                         reclaimed := if s.rows[id].status.Sending?
                                      then s.past.reclaimed[id := CountOf(s.past.reclaimed, id) + 1]
                                      else s.past.reclaimed))
    case StartSend(w) => s.(workers := s.workers[w := s.workers[w].(phase := InSend(s.now))])
    case EndSend(w, ok) =>
      var worker := s.workers[w];
      if ok then
        s.(workers := s.workers[w := worker.(phase := Delivered(worker.phase.since))],
           past := s.past.(sent := s.past.sent + {(worker.item.id, worker.item.row.leaseOwner)}))
      else s.(workers := s.workers[w := worker.(phase := Undelivered(worker.phase.since))])
    case Delete(w) =>
      var item := s.workers[w].item;
      s.(rows := DeleteRows(s.rows, item), workers := s.workers - {w},
         past := s.past.(removed := if Current(s.rows, item) then s.past.removed + {item.id} else s.past.removed))
    case Reschedule(w) =>
      var item := s.workers[w].item;
      s.(rows := SaveRows(s.rows, Rescheduled(item, s.now)), workers := s.workers - {w},
         past := if Current(s.rows, item) && item.row.attempts < MAX_ATTEMPTS
                 then s.past.(scheduled := s.past.scheduled[item.id :=
                        SecondsOf(s.past.scheduled, item.id) + Backoff(item.row.attempts)])
                 else s.past)
    case Crash(w) => s.(workers := s.workers - {w})
  }

  predicate Allowed(policy: Policy, s: State, steps: seq<Step>)
    decreases |steps|
  {
    steps == [] || (Enabled(policy, s, steps[0]) && Allowed(policy, Apply(policy, s, steps[0]), steps[1..]))
  }

  function Run(policy: Policy, s: State, steps: seq<Step>): State
    requires Allowed(policy, s, steps)
    decreases |steps|
  {
    if steps == [] then s else Run(policy, Apply(policy, s, steps[0]), steps[1..])
  }

  // ----- Conservation, fencing and retry accounting

  /** Seconds of backoff scheduled by the first k failures. */
  function TotalBackoff(k: nat): Time {
    if k == 0 then 0 else TotalBackoff(k - 1) + Backoff(k)
  }

  /** No item is ever rescheduled by more than this in all. */
  const MAX_BACKOFF: Time := 2850

  function Min(a: int, b: int): int { if a < b then a else b }

  /** The failed attempts already accounted for by a backoff. */
  function Failures(row: Row): int {
    if row.status.Pending? then row.attempts else row.attempts - 1
  }

  /** Every id ever issued is in the table or removed, never both, with what was enqueued. */
  ghost predicate Conserved(rows: Table, next: nat, past: History) {
    && next >= 1
    && past.contents.Keys == rows.Keys + past.removed
    && rows.Keys !! past.removed
    && (forall id :: id in past.contents <==> 1 <= id < next)
    && (forall id :: id in rows ==> rows[id].content == past.contents[id])
  }

  predicate RowAccounted(row: Row, tokens: set<Token>) {
    match row.status
    case Pending => 0 <= row.attempts <= 9
    case Sending => 1 <= row.attempts && row.leaseOwner in tokens
    case Failed => 10 <= row.attempts
  }

  predicate Accounted(rows: Table, past: History) {
    forall id :: id in rows ==> RowAccounted(rows[id], past.tokens)
  }

  /** Tokens tell workers apart. */
  predicate Fenced(s: State) {
    && NO_TOKEN !in s.past.tokens
    && (forall w :: w in s.workers ==>
          s.workers[w].item.row.leaseOwner in s.past.tokens && s.workers[w].item.id in s.past.contents
          && s.workers[w].item.row.status.Sending?)
    && (forall w, v :: w in s.workers && v in s.workers && w != v ==>
          s.workers[w].item.row.leaseOwner != s.workers[v].item.row.leaseOwner)
  }

  /** The holder of the current token has an exact copy of the row. */
  predicate Copied(s: State) {
    forall w :: w in s.workers && Current(s.rows, s.workers[w].item) ==>
      s.rows[s.workers[w].item.id] == s.workers[w].item.row
  }

  /** Whoever deletes has delivered, and whatever is gone was delivered. */
  ghost predicate Proven(s: State) {
    && (forall w :: w in s.workers && s.workers[w].phase.Delivered? ==>
          (s.workers[w].item.id, s.workers[w].item.row.leaseOwner) in s.past.sent)
    && (forall id :: id in s.past.removed ==> exists token :: (id, token) in s.past.sent)
  }

  /** The backoff of a row is bounded by its failures, and equal to them while no lease expired. */
  predicate RowScheduled(row: Row, seconds: Time, reclaims: nat) {
    Failures(row) >= 0 ==>
      && seconds <= TotalBackoff(Min(Failures(row), 9))
      && (reclaims == 0 ==> Failures(row) <= 9 && seconds == TotalBackoff(Failures(row)))
  }

  predicate Scheduled(rows: Table, past: History) {
    && past.scheduled.Keys <= past.contents.Keys
    && past.reclaimed.Keys <= past.contents.Keys
    && (forall id :: id in past.contents ==> SecondsOf(past.scheduled, id) <= MAX_BACKOFF)
    && (forall id :: id in rows ==> RowScheduled(rows[id], SecondsOf(past.scheduled, id), CountOf(past.reclaimed, id)))
  }

  ghost predicate Inv(s: State) {
    Conserved(s.rows, s.next, s.past) && Accounted(s.rows, s.past) && Fenced(s) && Copied(s) && Proven(s)
      && Scheduled(s.rows, s.past)
  }

  lemma {:induction false} TotalGrows(a: nat, b: nat)
    requires a <= b
    ensures TotalBackoff(a) <= TotalBackoff(b)
  {
    if a < b {
      TotalGrows(a, b - 1);
    }
  }

  /** The scheduled delay after k failures, in closed form. */
  lemma {:induction false} TotalInClosedForm(k: nat)
    ensures 6 * TotalBackoff(k) == 10 * (k * (k + 1) * (2 * k + 1))
  {
    if k > 0 {
      TotalInClosedForm(k - 1);
      assert (k - 1) * k * (2 * k - 1) + 6 * k * k == k * (k + 1) * (2 * k + 1);
    }
  }

  lemma TotalIsBounded(k: nat)
    requires k <= 9
    ensures TotalBackoff(k) <= TotalBackoff(9) == MAX_BACKOFF
  {
    TotalGrows(k, 9);
    TotalInClosedForm(9);
  }

  /** A claim starts no backoff; an expired lease only loosens the bound. */
  lemma ClaimedRowScheduled(row: Row, now: Time, token: Token, seconds: Time, reclaims: nat)
    requires RowScheduled(row, seconds, reclaims) && row.attempts >= 0 && !row.status.Failed?
    requires row.status.Sending? ==> row.attempts >= 1
    requires row.status.Pending? ==> row.attempts <= 9
    ensures RowScheduled(ClaimedRow(row, now, token), seconds, if row.status.Sending? then reclaims + 1 else reclaims)
  {
    TotalGrows(Min(Failures(row), 9), Min(row.attempts, 9));
  }

  /** A failed attempt below the limit adds exactly its own square. */
  lemma RescheduledRowScheduled(row: Row, now: Time, seconds: Time, reclaims: nat)
    requires RowScheduled(row, seconds, reclaims) && row.status.Sending? && 1 <= row.attempts < MAX_ATTEMPTS
    ensures seconds + Backoff(row.attempts) <= MAX_BACKOFF
    ensures RowScheduled(row.(status := Pending, nextRetry := now, leaseOwner := NO_TOKEN, leaseUntil := 0),
                         seconds + Backoff(row.attempts), reclaims)
  {
    TotalIsBounded(row.attempts);
  }

  lemma EnqueueKeepsRows(policy: Policy, s: State, content: Content)
    requires Conserved(s.rows, s.next, s.past) && Accounted(s.rows, s.past) && Scheduled(s.rows, s.past)
    ensures var t := Apply(policy, s, Enqueue(content));
            Conserved(t.rows, t.next, t.past) && Accounted(t.rows, t.past) && Scheduled(t.rows, t.past)
  {
    assert RowScheduled(FreshRow(content, s.now), 0, 0);
  }

  lemma EnqueueKeepsWorkers(policy: Policy, s: State, content: Content)
    requires Conserved(s.rows, s.next, s.past) && Fenced(s) && Copied(s) && Proven(s)
    ensures var t := Apply(policy, s, Enqueue(content)); Fenced(t) && Copied(t) && Proven(t)
  {
  }

  lemma ClaimKeepsRows(policy: Policy, s: State, step: Step)
    requires Conserved(s.rows, s.next, s.past) && Accounted(s.rows, s.past) && Copied(s) && Fenced(s)
    requires step.Claim? && Enabled(policy, s, step)
    ensures var t := Apply(policy, s, step); Conserved(t.rows, t.next, t.past) && Accounted(t.rows, t.past)
  {
  }

  lemma DeleteKeepsRows(policy: Policy, s: State, step: Step)
    requires Conserved(s.rows, s.next, s.past) && Accounted(s.rows, s.past) && Copied(s) && Fenced(s)
    requires step.Delete? && Enabled(policy, s, step)
    ensures var t := Apply(policy, s, step); Conserved(t.rows, t.next, t.past) && Accounted(t.rows, t.past)
  {
  }

  lemma RescheduleKeepsRows(policy: Policy, s: State, step: Step)
    requires Conserved(s.rows, s.next, s.past) && Accounted(s.rows, s.past) && Copied(s) && Fenced(s)
    requires step.Reschedule? && Enabled(policy, s, step)
    ensures var t := Apply(policy, s, step); Conserved(t.rows, t.next, t.past) && Accounted(t.rows, t.past)
  {
  }

  lemma ClaimKeepsScheduled(policy: Policy, s: State, step: Step)
    requires Conserved(s.rows, s.next, s.past) && Accounted(s.rows, s.past) && Scheduled(s.rows, s.past)
             && step.Claim? && Enabled(policy, s, step)
    ensures var t := Apply(policy, s, step); Scheduled(t.rows, t.past)
  {
    ClaimedRowScheduled(s.rows[step.id], s.now, step.token, SecondsOf(s.past.scheduled, step.id),
                        CountOf(s.past.reclaimed, step.id));
  }

  lemma ClaimKeepsWorkers(policy: Policy, s: State, step: Step)
    requires Conserved(s.rows, s.next, s.past) && Fenced(s) && Copied(s) && Proven(s) && step.Claim?
             && Enabled(policy, s, step)
    ensures var t := Apply(policy, s, step); Fenced(t) && Copied(t) && Proven(t)
  {
  }

  lemma DeleteKeepsScheduled(policy: Policy, s: State, step: Step)
    requires Scheduled(s.rows, s.past) && step.Delete? && Enabled(policy, s, step)
    ensures var t := Apply(policy, s, step); Scheduled(t.rows, t.past)
  {
  }

  lemma DeleteKeepsWorkers(policy: Policy, s: State, step: Step)
    requires Fenced(s) && Copied(s) && Proven(s) && step.Delete? && Enabled(policy, s, step)
    ensures var t := Apply(policy, s, step); Fenced(t) && Copied(t) && Proven(t)
  {
    var t := Apply(policy, s, step);
    var item := s.workers[step.w].item;
    assert (item.id, item.row.leaseOwner) in t.past.sent;
  }

  lemma BackoffKeepsScheduled(rows: Table, past: History, id: nat, now: Time)
    requires Scheduled(rows, past) && id in rows && id in past.contents
    requires rows[id].status.Sending? && 1 <= rows[id].attempts < MAX_ATTEMPTS
    ensures Scheduled(
      rows[id := Rescheduled(Item(id, rows[id]), now).row.(leaseOwner := NO_TOKEN, leaseUntil := 0)],
      past.(scheduled := past.scheduled[id := SecondsOf(past.scheduled, id) + Backoff(rows[id].attempts)]))
  {
    RescheduledRowScheduled(rows[id], now + Backoff(rows[id].attempts),
                            SecondsOf(past.scheduled, id), CountOf(past.reclaimed, id));
  }

  lemma GiveUpKeepsScheduled(rows: Table, past: History, id: nat)
    requires Scheduled(rows, past) && id in rows && rows[id].status.Sending?
    ensures Scheduled(rows[id := rows[id].(status := Failed, leaseOwner := NO_TOKEN, leaseUntil := 0)], past)
  {
  }

  lemma RetryKeepsScheduled(policy: Policy, s: State, step: Step)
    requires Conserved(s.rows, s.next, s.past) && Accounted(s.rows, s.past) && Scheduled(s.rows, s.past) && Copied(s)
    requires step.Reschedule? && Enabled(policy, s, step) && Current(s.rows, s.workers[step.w].item)
    requires s.workers[step.w].item.row.attempts < MAX_ATTEMPTS
    ensures var t := Apply(policy, s, step); Scheduled(t.rows, t.past)
  {
    BackoffKeepsScheduled(s.rows, s.past, s.workers[step.w].item.id, s.now);
  }

  lemma LastTryKeepsScheduled(policy: Policy, s: State, step: Step)
    requires Conserved(s.rows, s.next, s.past) && Accounted(s.rows, s.past) && Scheduled(s.rows, s.past) && Copied(s)
    requires step.Reschedule? && Enabled(policy, s, step) && Current(s.rows, s.workers[step.w].item)
    requires s.workers[step.w].item.row.attempts >= MAX_ATTEMPTS
    ensures var t := Apply(policy, s, step); Scheduled(t.rows, t.past)
  {
    GiveUpKeepsScheduled(s.rows, s.past, s.workers[step.w].item.id);
  }

  lemma RescheduleKeepsScheduled(policy: Policy, s: State, step: Step)
    requires Conserved(s.rows, s.next, s.past) && Accounted(s.rows, s.past) && Scheduled(s.rows, s.past) && Copied(s)
    requires step.Reschedule? && Enabled(policy, s, step)
    ensures var t := Apply(policy, s, step); Scheduled(t.rows, t.past)
  {
    var item := s.workers[step.w].item;
    if Current(s.rows, item) {
      if item.row.attempts < MAX_ATTEMPTS {
        RetryKeepsScheduled(policy, s, step);
      } else {
        LastTryKeepsScheduled(policy, s, step);
      }
    }
  }

  lemma RescheduleKeepsWorkers(policy: Policy, s: State, step: Step)
    requires Conserved(s.rows, s.next, s.past) && Fenced(s) && Copied(s) && Proven(s) && step.Reschedule?
             && Enabled(policy, s, step)
    ensures var t := Apply(policy, s, step); Fenced(t) && Copied(t) && Proven(t)
  {
  }

  predicate IsWorkerStep(step: Step) {
    step.Tick? || step.StartSend? || step.EndSend? || step.Crash?
  }

  lemma WorkerStepKeepsRows(policy: Policy, s: State, step: Step)
    requires Conserved(s.rows, s.next, s.past) && Accounted(s.rows, s.past) && Scheduled(s.rows, s.past)
             && IsWorkerStep(step) && Enabled(policy, s, step)
    ensures var t := Apply(policy, s, step);
            Conserved(t.rows, t.next, t.past) && Accounted(t.rows, t.past) && Scheduled(t.rows, t.past)
  {
  }

  lemma WorkerStepKeepsWorkers(policy: Policy, s: State, step: Step)
    requires Fenced(s) && Copied(s) && IsWorkerStep(step) && Enabled(policy, s, step)
    ensures var t := Apply(policy, s, step); Fenced(t) && Copied(t)
  {
    var t := Apply(policy, s, step);
    assert forall w :: w in t.workers ==> w in s.workers && t.workers[w].item == s.workers[w].item;
  }

  lemma WorkerStepKeepsProven(policy: Policy, s: State, step: Step)
    requires Proven(s) && IsWorkerStep(step) && Enabled(policy, s, step)
    ensures Proven(Apply(policy, s, step))
  {
    assert s.past.sent <= Apply(policy, s, step).past.sent;
  }

  /** Every step of every run keeps the queue's invariant. */
  lemma StepKeepsInv(policy: Policy, s: State, step: Step)
    requires Inv(s) && Enabled(policy, s, step)
    ensures Inv(Apply(policy, s, step))
  {
    match step
    case Enqueue(content) => EnqueueKeepsRows(policy, s, content); EnqueueKeepsWorkers(policy, s, content);
    case Claim(_, _, _) =>
      ClaimKeepsRows(policy, s, step);
      ClaimKeepsScheduled(policy, s, step);
      ClaimKeepsWorkers(policy, s, step);
    case Delete(_) =>
      DeleteKeepsRows(policy, s, step);
      DeleteKeepsScheduled(policy, s, step);
      DeleteKeepsWorkers(policy, s, step);
    case Reschedule(_) =>
      RescheduleKeepsRows(policy, s, step);
      RescheduleKeepsScheduled(policy, s, step);
      RescheduleKeepsWorkers(policy, s, step);
    case _ =>
      WorkerStepKeepsRows(policy, s, step);
      WorkerStepKeepsWorkers(policy, s, step);
      WorkerStepKeepsProven(policy, s, step);
  }

  lemma {:induction false} RunKeepsInv(policy: Policy, s: State, steps: seq<Step>)
    requires Inv(s) && Allowed(policy, s, steps)
    ensures Inv(Run(policy, s, steps))
    decreases |steps|
  {
    if steps != [] {
      StepKeepsInv(policy, s, steps[0]);
      RunKeepsInv(policy, Apply(policy, s, steps[0]), steps[1..]);
    }
  }

  // ----- What every run guarantees

  /**
   Conservation: every id ever issued is exactly one of pending, sending, failed or
   removed; its content is what was enqueued; and whatever was removed was delivered.
   */
  lemma EveryItemIsAccountedFor(policy: Policy, start: Time, steps: seq<Step>, id: nat)
    requires Allowed(policy, Init(start), steps)
    ensures var s := Run(policy, Init(start), steps);
      && (1 <= id < s.next <==> id in s.rows || id in s.past.removed)
      && !(id in s.rows && id in s.past.removed)
      && (id in s.rows ==> id in s.past.contents && s.rows[id].content == s.past.contents[id])
      && (id in s.past.removed ==> exists token :: (id, token) in s.past.sent)
  {
    RunKeepsInv(policy, Init(start), steps);
  }

  /** Only the holder of the row's current token takes it out, and only after delivering it. */
  lemma OnlyTheHolderRemoves(policy: Policy, s: State, step: Step, id: nat)
    requires Inv(s) && Enabled(policy, s, step)
    requires id in s.rows && id !in Apply(policy, s, step).rows
    ensures step.Delete? && s.workers[step.w].item.id == id && s.workers[step.w].phase.Delivered?
    ensures s.rows[id].status.Sending? && s.rows[id].leaseOwner == s.workers[step.w].item.row.leaseOwner
    ensures (id, s.rows[id].leaseOwner) in s.past.sent
  {
  }

  /** A token is stale once the row is gone, or under another token, or no longer being sent. */
  predicate Stale(s: State, id: nat, token: Token) {
    id in s.rows ==> !s.rows[id].status.Sending? || s.rows[id].leaseOwner != token
  }

  /** Fencing: a superseded token never becomes current again... */
  lemma {:induction false} StaleForever(policy: Policy, s: State, steps: seq<Step>, id: nat, token: Token)
    requires Inv(s) && Allowed(policy, s, steps)
    requires 1 <= id < s.next && token in s.past.tokens && Stale(s, id, token)
    ensures Stale(Run(policy, s, steps), id, token)
    decreases |steps|
  {
    if steps != [] {
      var t := Apply(policy, s, steps[0]);
      StepKeepsInv(policy, s, steps[0]);
      StaysStale(policy, s, steps[0], id, token);
      StaleForever(policy, t, steps[1..], id, token);
    }
  }

  lemma StaysStale(policy: Policy, s: State, step: Step, id: nat, token: Token)
    requires Inv(s) && Enabled(policy, s, step)
    requires 1 <= id < s.next && token in s.past.tokens && Stale(s, id, token)
    ensures var t := Apply(policy, s, step); Stale(t, id, token) && id < t.next && token in t.past.tokens
  {
    if step.Reschedule? && Current(s.rows, s.workers[step.w].item) {
      assert Rescheduled(s.workers[step.w].item, s.now).row.status != Sending;
    }
  }

  /** ... and whoever still works under it changes nothing. */
  lemma StaleWorkerChangesNothing(policy: Policy, s: State, step: Step)
    requires Enabled(policy, s, step) && (step.Delete? || step.Reschedule?)
    requires Stale(s, s.workers[step.w].item.id, s.workers[step.w].item.row.leaseOwner)
    ensures var t := Apply(policy, s, step); t.rows == s.rows && t.past == s.past && t.workers == s.workers - {step.w}
  {
  }

  /** Retry accounting in every reachable state. */
  lemma RetriesAreBounded(policy: Policy, start: Time, steps: seq<Step>, id: nat)
    requires Allowed(policy, Init(start), steps)
    requires id in Run(policy, Init(start), steps).past.contents
    ensures var s := Run(policy, Init(start), steps);
      && SecondsOf(s.past.scheduled, id) <= MAX_BACKOFF < ReplayGuard.SKEW
      && (id in s.rows ==>
            && (s.rows[id].status.Pending? ==> s.rows[id].attempts <= 9)
            && (s.rows[id].status.Sending? ==> s.rows[id].attempts >= 1)
            && (s.rows[id].status.Failed? ==> s.rows[id].attempts >= 10))
      && (id in s.rows && CountOf(s.past.reclaimed, id) == 0 ==>
            0 <= Failures(s.rows[id]) <= 9 && SecondsOf(s.past.scheduled, id) == TotalBackoff(Failures(s.rows[id])))
  {
    RunKeepsInv(policy, Init(start), steps);
    var s := Run(policy, Init(start), steps);
    assert id in s.rows ==> RowAccounted(s.rows[id], s.past.tokens);
  }
}
