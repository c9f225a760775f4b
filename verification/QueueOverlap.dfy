/**
 Workers that keep to their budgets never send one item at the same time, exactly
 when both budgets together stay inside the lease.
 */
module QueueOverlap {
  import opened Wrappers
  import opened FederationQueue
  import opened QueueRuns

  /** The budgets of `StartWorker`. */
  const START_WORKER := Budget(30, 40)

  predicate SendingNow(worker: Worker) { worker.phase.InSend? }

  predicate NoOverlap(s: State) {
    forall w, v ::
      (&& w in s.workers && v in s.workers && w != v
       && SendingNow(s.workers[w]) && SendingNow(s.workers[v])) ==>
        s.workers[w].item.id != s.workers[v].item.id
  }

  /** Every live worker holds the current token of its row, with time left on the lease. */
  predicate LeasesHeld(policy: Policy, s: State)
    requires policy.Budget?
  {
    forall w :: w in s.workers ==>
      && Current(s.rows, s.workers[w].item)
      && s.rows[s.workers[w].item.id].leaseUntil == s.workers[w].claimedAt + LEASE
      && InTime(policy, s.workers[w], s.now)
      && (!s.workers[w].phase.Holding? ==>
            s.workers[w].phase.since <= s.workers[w].claimedAt + policy.claim)
  }

  predicate TokensApart(s: State) {
    && (forall w :: w in s.workers ==> s.workers[w].item.row.leaseOwner in s.past.tokens)
    && (forall w, v :: w in s.workers && v in s.workers && w != v ==>
          s.workers[w].item.row.leaseOwner != s.workers[v].item.row.leaseOwner)
  }

  predicate IdsBelow(s: State) {
    forall id :: id in s.rows ==> id < s.next
  }

  /** No live worker's item is up for claiming. */
  lemma LeaseOutlivesWorker(policy: Policy, s: State, w: nat)
    requires policy.Budget? && policy.claim + policy.send < LEASE
    requires LeasesHeld(policy, s) && w in s.workers
    ensures !Claimable(s.rows[s.workers[w].item.id], s.now)
  {
  }

  lemma StepKeepsLeases(policy: Policy, s: State, step: Step)
    requires policy.Budget? && policy.claim + policy.send < LEASE
    requires LeasesHeld(policy, s) && TokensApart(s) && IdsBelow(s) && Enabled(policy, s, step)
    ensures LeasesHeld(policy, Apply(policy, s, step))
  {
    match step
    case Claim(w, id, token) =>
      forall v | v in s.workers ensures s.workers[v].item.id != id {
        LeaseOutlivesWorker(policy, s, v);
      }
    case Delete(w) =>
      forall v | v in s.workers && v != w ensures s.workers[v].item.id != s.workers[w].item.id {
        assert s.workers[v].item.row.leaseOwner != s.workers[w].item.row.leaseOwner;
      }
    case Reschedule(w) =>
      forall v | v in s.workers && v != w ensures s.workers[v].item.id != s.workers[w].item.id {
        assert s.workers[v].item.row.leaseOwner != s.workers[w].item.row.leaseOwner;
      }
    case _ =>
  }

  lemma StepKeepsTokens(policy: Policy, s: State, step: Step)
    requires TokensApart(s) && IdsBelow(s) && Enabled(policy, s, step)
    ensures TokensApart(Apply(policy, s, step)) && IdsBelow(Apply(policy, s, step))
  {
  }

  lemma {:induction false} RunKeepsLeases(policy: Policy, s: State, steps: seq<Step>)
    requires policy.Budget? && policy.claim + policy.send < LEASE
    requires LeasesHeld(policy, s) && TokensApart(s) && IdsBelow(s) && Allowed(policy, s, steps)
    ensures LeasesHeld(policy, Run(policy, s, steps)) && TokensApart(Run(policy, s, steps))
    decreases |steps|
  {
    if steps != [] {
      StepKeepsLeases(policy, s, steps[0]);
      StepKeepsTokens(policy, s, steps[0]);
      RunKeepsLeases(policy, Apply(policy, s, steps[0]), steps[1..]);
    }
  }

  /** A live worker never finds its lease taken, and no two workers ever hold one item. */
  lemma LiveWorkerKeepsItsLease(policy: Policy, start: Time, steps: seq<Step>)
    requires policy.Budget? && policy.claim + policy.send < LEASE && Allowed(policy, Init(start), steps)
    ensures var s := Run(policy, Init(start), steps);
      && (forall w :: w in s.workers ==> Current(s.rows, s.workers[w].item))
      && (forall w, v :: w in s.workers && v in s.workers && w != v ==> s.workers[w].item.id != s.workers[v].item.id)
  {
    RunKeepsLeases(policy, Init(start), steps);
    var s := Run(policy, Init(start), steps);
    forall w, v | w in s.workers && v in s.workers && w != v
      ensures s.workers[w].item.id != s.workers[v].item.id
    {
      assert Current(s.rows, s.workers[w].item) && Current(s.rows, s.workers[v].item);
    }
  }

  ghost predicate NeverOverlaps(policy: Policy) {
    forall start: Time, steps: seq<Step> :: Allowed(policy, Init(start), steps) ==>
        NoOverlap(Run(policy, Init(start), steps))
  }

  ghost predicate Reaches(policy: Policy, s: State, t: State) {
    exists steps :: Allowed(policy, s, steps) && Run(policy, s, steps) == t
  }

  lemma {:induction false} RunOneMore(policy: Policy, s: State, steps: seq<Step>, step: Step)
    requires Allowed(policy, s, steps) && Enabled(policy, Run(policy, s, steps), step)
    ensures Allowed(policy, s, steps + [step])
    ensures Run(policy, s, steps + [step]) == Apply(policy, Run(policy, s, steps), step)
    decreases |steps|
  {
    if steps == [] {
      assert ([] + [step])[1..] == [];
      assert Run(policy, Apply(policy, s, step), []) == Apply(policy, s, step);
    } else {
      RunOneMore(policy, Apply(policy, s, steps[0]), steps[1..], step);
      assert (steps + [step])[1..] == steps[1..] + [step];
    }
  }

  lemma Go(policy: Policy, s: State, t: State, step: Step) returns (u: State)
    requires Reaches(policy, s, t) && Enabled(policy, t, step)
    ensures u == Apply(policy, t, step) && Reaches(policy, s, u)
  {
    var steps :| Allowed(policy, s, steps) && Run(policy, s, steps) == t;
    RunOneMore(policy, s, steps, step);
    u := Apply(policy, t, step);
  }

  lemma Wait(policy: Policy, s: State, t: State, seconds: nat) returns (u: State)
    requires Reaches(policy, s, t)
    requires forall w :: w in t.workers ==> InTime(policy, t.workers[w], t.now + seconds)
    ensures u == t.(now := t.now + seconds) && Reaches(policy, s, u)
  {
    if seconds == 0 {
      u := t;
    } else {
      u := Go(policy, s, t, Tick(seconds));
    }
  }

  const ITEM := Content("", "", "")

  lemma FirstClaim(policy: Policy) returns (s: State)
    ensures Reaches(policy, Init(0), s)
    ensures s.now == 0 && s.rows == map[1 := ClaimedRow(FreshRow(ITEM, 0), 0, 1)] && s.past.tokens == {1}
    ensures s.workers == map[0 := Worker(Item(1, s.rows[1]), 0, Holding)]
  {
    assert Allowed(policy, Init(0), []) && Run(policy, Init(0), []) == Init(0);
    s := Go(policy, Init(0), Init(0), Enqueue(ITEM));
    s := Go(policy, Init(0), s, Claim(0, 1, 1));
  }

  /** With budgets as long as the lease, the second worker claims while the first still sends. */
  lemma LongBudgetsOverlap(policy: Policy) returns (s: State)
    requires policy.Budget? && policy.claim + policy.send >= LEASE
    ensures Reaches(policy, Init(0), s) && !NoOverlap(s)
  {
    var begin: nat := if policy.claim < LEASE then policy.claim else LEASE;
    s := FirstClaim(policy);
    s := Wait(policy, Init(0), s, begin);
    s := Go(policy, Init(0), s, StartSend(0));
    s := Wait(policy, Init(0), s, LEASE - begin);
    s := Go(policy, Init(0), s, Claim(1, 1, 2));
    s := Go(policy, Init(0), s, StartSend(1));
    assert SendingNow(s.workers[0]) && SendingNow(s.workers[1]);
  }

  /** Sends never overlap exactly when the two budgets fit inside the lease. */
  lemma NoOverlapExactlyWithinLease(policy: Policy)
    requires policy.Budget?
    ensures NeverOverlaps(policy) <==> policy.claim + policy.send < LEASE
  {
    if policy.claim + policy.send < LEASE {
      forall start: Time, steps: seq<Step> | Allowed(policy, Init(start), steps)
        ensures NoOverlap(Run(policy, Init(start), steps))
      {
        LiveWorkerKeepsItsLease(policy, start, steps);
      }
    } else {
      var s := LongBudgetsOverlap(policy);
      var steps :| Allowed(policy, Init(0), steps) && Run(policy, Init(0), steps) == s;
      assert !NoOverlap(Run(policy, Init(0), steps));
    }
  }

  /** The budgets the service ships with. */
  lemma StartWorkerNeverOverlaps()
    ensures NeverOverlaps(START_WORKER)
  {
    NoOverlapExactlyWithinLease(START_WORKER);
  }
}
