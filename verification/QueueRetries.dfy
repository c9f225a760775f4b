/**
 When an item of the outbound queue is tried again, and in what turn, by the times at which
 things happened in a run.
 */
module QueueRetries {
  import opened Wrappers
  import opened FederationQueue
  import opened QueueRuns

  /** Since when an item waits, and after how many failed attempts. */
  datatype Wait = Wait(since: Time, failures: int)

  /** Since when each item has waited, from being enqueued or last given back, and when it was last claimed. */
  datatype Log = Log(waiting: map<nat, Wait>, claimed: map<nat, Time>)

  /** The end of a wait: ten times the square of the failures. */
  function Until(wait: Wait): Time { wait.since + 10 * wait.failures * wait.failures }

  function Logging(s: State, step: Step, log: Log): Log {
    match step
    case Enqueue(_) => log.(waiting := log.waiting[s.next := Wait(s.now, 0)])
    case Claim(_, id, _) => log.(claimed := log.claimed[id := s.now])
    case Reschedule(w) =>
      if w in s.workers && Current(s.rows, s.workers[w].item)
      then log.(waiting := log.waiting[s.workers[w].item.id := Wait(s.now, s.rows[s.workers[w].item.id].attempts)])
      else log
    case _ => log
  }

  ghost function LogOf(policy: Policy, s: State, steps: seq<Step>, log: Log): Log
    requires Allowed(policy, s, steps)
    decreases |steps|
  {
    if steps == [] then log
    else LogOf(policy, Apply(policy, s, steps[0]), steps[1..], Logging(s, steps[0], log))
  }

  /** The retry time is the end of the last wait, and one being sent has two minutes. */
  predicate RowIsTimed(id: nat, row: Row, log: Log) {
    && (!row.status.Failed? ==> id in log.waiting && row.nextRetry == Until(log.waiting[id]))
    && (row.status.Pending? ==> log.waiting[id].failures == row.attempts)
    && (row.status.Sending? ==> id in log.claimed && row.leaseUntil == log.claimed[id] + 120)
  }

  predicate Timed(rows: Table, log: Log) { forall id :: id in rows ==> RowIsTimed(id, rows[id], log) }

  lemma RescheduleKeepsTimed(policy: Policy, s: State, step: Step, log: Log)
    requires Copied(s) && Timed(s.rows, log) && step.Reschedule? && Enabled(policy, s, step)
    ensures Timed(Apply(policy, s, step).rows, Logging(s, step, log))
  {
    var t, item := Apply(policy, s, step), s.workers[step.w].item;
    forall id | id in t.rows ensures RowIsTimed(id, t.rows[id], Logging(s, step, log)) {
      assert RowIsTimed(id, s.rows[id], log);
      if Current(s.rows, item) && id == item.id {
        assert item.row.attempts == s.rows[id].attempts;
      }
    }
  }

  lemma StepKeepsTimed(policy: Policy, s: State, step: Step, log: Log)
    requires Copied(s) && Timed(s.rows, log) && Enabled(policy, s, step)
    ensures Timed(Apply(policy, s, step).rows, Logging(s, step, log))
  {
    if step.Reschedule? {
      RescheduleKeepsTimed(policy, s, step, log);
    } else {
      var t := Apply(policy, s, step);
      forall id | id in t.rows ensures RowIsTimed(id, t.rows[id], Logging(s, step, log)) {
        if id in s.rows {
          assert RowIsTimed(id, s.rows[id], log);
        }
      }
    }
  }

  lemma {:induction false} RunKeepsTimed(policy: Policy, s: State, steps: seq<Step>, log: Log)
    requires Inv(s) && Timed(s.rows, log) && Allowed(policy, s, steps)
    ensures Timed(Run(policy, s, steps).rows, LogOf(policy, s, steps, log))
    decreases |steps|
  {
    if steps != [] {
      StepKeepsInv(policy, s, steps[0]);
      StepKeepsTimed(policy, s, steps[0], log);
      RunKeepsTimed(policy, Apply(policy, s, steps[0]), steps[1..], Logging(s, steps[0], log));
    }
  }

  // ----- When

  /** From this time on an item may be claimed, in terms of what happened to it. */
  function Due(log: Log, id: nat, row: Row): Option<Time> {
    if row.status.Pending? && id in log.waiting then Some(log.waiting[id].since + 10 * row.attempts * row.attempts)
    else if row.status.Sending? && id in log.claimed then Some(log.claimed[id] + 120)
    else None
  }

  predicate IsDue(log: Log, id: nat, row: Row, now: Time) { Due(log, id, row).Some? && Due(log, id, row).value <= now }

  /**
   In every reachable state: a pending item with k failures can be claimed exactly from 10·k·k seconds after it was
   enqueued or last given back, one being sent exactly from 120 seconds after it was claimed, a failed one never.
   */
  lemma ClaimableExactlyWhenDue(policy: Policy, start: Time, steps: seq<Step>, id: nat, later: Time)
    requires Allowed(policy, Init(start), steps) && id in Run(policy, Init(start), steps).rows
    ensures var row := Run(policy, Init(start), steps).rows[id];
            var log := LogOf(policy, Init(start), steps, Log(map[], map[]));
            (!row.status.Failed? ==> Due(log, id, row).Some?) && (Claimable(row, later) <==> IsDue(log, id, row, later))
  {
    RunKeepsTimed(policy, Init(start), steps, Log(map[], map[]));
    assert RowIsTimed(id, Run(policy, Init(start), steps).rows[id],
                      LogOf(policy, Init(start), steps, Log(map[], map[])));
  }

  // ----- In what turn

  /**
   Every claim in every run takes an item that is due, and passes nobody over who was to come first: an abandoned
   item comes before any pending one, and of two alike the one whose last wait ended earlier.
   */
  lemma ClaimsComeInTurn(policy: Policy, start: Time, steps: seq<Step>, w: nat, id: nat, token: Token, other: nat)
    requires Allowed(policy, Init(start), steps)
    requires Enabled(policy, Run(policy, Init(start), steps), Claim(w, id, token))
    requires other in Run(policy, Init(start), steps).rows
    ensures var s, log := Run(policy, Init(start), steps), LogOf(policy, Init(start), steps, Log(map[], map[]));
            && IsDue(log, id, s.rows[id], s.now)
            && (IsDue(log, other, s.rows[other], s.now) ==>
                  && id in log.waiting && other in log.waiting
                  && (s.rows[id].status.Pending? ==> s.rows[other].status.Pending?)
                  && (s.rows[id].status == s.rows[other].status ==>
                        Until(log.waiting[id]) <= Until(log.waiting[other])))
  {
    var s := Run(policy, Init(start), steps);
    ClaimableExactlyWhenDue(policy, start, steps, id, s.now);
    ClaimableExactlyWhenDue(policy, start, steps, other, s.now);
    RunKeepsTimed(policy, Init(start), steps, Log(map[], map[]));
  }

  // ----- After one failure

  lemma UntouchedUnlessClaimed(policy: Policy, s: State, step: Step, id: nat)
    requires Enabled(policy, s, step) && id in s.rows && id < s.next && !s.rows[id].status.Sending?
    requires step.Claim? ==> step.id != id
    ensures var t := Apply(policy, s, step); id in t.rows && id < t.next && t.rows[id] == s.rows[id]
  {
  }

  lemma {:induction false} StaysUntouched(policy: Policy, s: State, steps: seq<Step>, id: nat)
    requires Allowed(policy, s, steps) && id in s.rows && id < s.next && !s.rows[id].status.Sending?
    requires forall i :: 0 <= i < |steps| && steps[i].Claim? ==> steps[i].id != id
    ensures id in Run(policy, s, steps).rows && Run(policy, s, steps).rows[id] == s.rows[id]
    decreases |steps|
  {
    if steps != [] {
      UntouchedUnlessClaimed(policy, s, steps[0], id);
      StaysUntouched(policy, Apply(policy, s, steps[0]), steps[1..], id);
    }
  }

  /** The holder gives an item back after its k-th attempt, k below ten: until it is claimed again, whatever others do,
      it can be claimed exactly from 10·k·k seconds later. */
  lemma RetryWaits(policy: Policy, s: State, w: nat, steps: seq<Step>, later: Time)
    requires Inv(s) && Enabled(policy, s, Reschedule(w)) && Current(s.rows, s.workers[w].item)
    requires s.workers[w].item.row.attempts < 10 && Allowed(policy, Apply(policy, s, Reschedule(w)), steps)
    requires forall i :: 0 <= i < |steps| && steps[i].Claim? ==> steps[i].id != s.workers[w].item.id
    ensures var id, k, t := s.workers[w].item.id, s.workers[w].item.row.attempts,
                            Run(policy, Apply(policy, s, Reschedule(w)), steps);
            && id in t.rows && t.rows[id].attempts == k == s.rows[id].attempts
            && (Claimable(t.rows[id], later) <==> s.now + 10 * k * k <= later)
  {
    StaysUntouched(policy, Apply(policy, s, Reschedule(w)), steps, s.workers[w].item.id);
  }

  lemma {:induction false} NeverAgain(policy: Policy, s: State, steps: seq<Step>, id: nat)
    requires Allowed(policy, s, steps) && id in s.rows && id < s.next && s.rows[id].status.Failed?
    ensures id in Run(policy, s, steps).rows && Run(policy, s, steps).rows[id] == s.rows[id]
    decreases |steps|
  {
    if steps != [] {
      UntouchedUnlessClaimed(policy, s, steps[0], id);
      NeverAgain(policy, Apply(policy, s, steps[0]), steps[1..], id);
    }
  }

  /** Given back after its tenth attempt or a later one, it stays in the table and is never claimed again, in any
      run. */
  lemma GivenUpForGood(policy: Policy, s: State, w: nat, steps: seq<Step>, later: Time)
    requires Inv(s) && Enabled(policy, s, Reschedule(w)) && Current(s.rows, s.workers[w].item)
    requires s.workers[w].item.row.attempts >= 10 && Allowed(policy, Apply(policy, s, Reschedule(w)), steps)
    ensures var id, t := s.workers[w].item.id, Run(policy, Apply(policy, s, Reschedule(w)), steps);
            id in t.rows && t.rows[id].status.Failed? && !Claimable(t.rows[id], later)
  {
    NeverAgain(policy, Apply(policy, s, Reschedule(w)), steps, s.workers[w].item.id);
  }
}
