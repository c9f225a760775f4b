/**
 What a review that decides leaves behind, for how long, and what the status of a case
 tells about its appeal.
 */
module CaseOutcomes {
  import opened Wrappers
  import opened Governance
  import opened Consensus

  // ----- What is left

  /** Every statement goes through. */
  const ALL := Store(true, true, true, true, true)

  /** Case, action and channel after a decision, value by value. */
  predicate LeftBy(channels: Channels, before: Tables, after: Tables, id: Id, action: Action, actionId: Id)
    requires id in before.cases
  {
    var c := before.cases[id];
    && after.cases == before.cases[id := Case(Actioned, c.kind, c.target)]
    && after.actions ==
         before.actions[actionId := Act(id, action, if c.kind == Post then Message else c.kind, c.target)]
    && after.suspended ==
         if c.kind == Channel && (action == Suspend || action == Quarantine) && channels(c.target).Some?
         then before.suspended[channels(c.target).value := ByCase(id)] else before.suspended
  }

  lemma ActedLeaves(t: Tables, channels: Channels, id: Id, action: Action, actionId: Id)
    requires id in t.cases
    ensures var after := Acted(t, channels, ALL, id, t.cases[id], action, actionId);
            LeftBy(channels, t, after, id, action, actionId)
  {
  }

  /**
   An undisturbed review all of whose statements go through acts on a new case exactly when its votes meet the
   threshold: the case is marked, the one action written, and a channel suspended if the action is a suspension or
   a quarantine. Otherwise the review itself is all it leaves.
   */
  lemma ReviewLeaves(policy: Policy, s: State, id: Id, review: Review, users: int, action: Action, actionId: Id)
    requires Enabled(policy, s, Check(id, review, true)) && actionId !in s.tables.actions
    requires Met(users, ReviewsOf(s.tables, id) + [review]) ==> CameOutFor(ReviewsOf(s.tables, id) + [review], action)
    ensures var seen := ReviewsOf(s.tables, id) + [review];
            var decided := Met(users, seen) && s.tables.cases[id].status == New;
            var steps := ReviewSteps(id, review, users, action, actionId, ALL, decided);
            && Allowed(policy, s, steps)
            && var after := Run(policy, s, steps).tables;
               && after.reviews == s.tables.reviews[id := seen]
               && if decided then LeftBy(policy.channels, s.tables, after, id, action, actionId)
                  else after == s.tables.(reviews := after.reviews)
  {
    StepsAddUp(policy, s, id, review, users, action, actionId, ALL);
    RecordedReviews(s.tables, id, review);
    ActedLeaves(WithReview(s.tables, id, review), policy.channels, id, action, actionId);
  }

  // ----- How long a suspension lasts

  /** The two ways back: an operator, and an accepted appeal in a case on that channel. */
  predicate Frees(policy: Policy, s: State, step: Step, channel: Id) {
    match step
    case Operate(c, suspend) => c == channel && !suspend
    case Reinstate(h, updated) =>
      && updated && h in s.others && s.others[h].ResolveClosed? && s.others[h].accepted
      && s.others[h].id in s.tables.cases && policy.channels(s.tables.cases[s.others[h].id].target) == Some(channel)
    case _ => false
  }

  lemma FreedExactly(policy: Policy, s: State, step: Step, channel: Id)
    requires Enabled(policy, s, step) && channel in s.tables.suspended
    ensures channel !in Apply(policy, s, step).tables.suspended <==> Frees(policy, s, step, channel)
  {
  }

  predicate NeverFrees(policy: Policy, s: State, steps: seq<Step>, channel: Id)
    requires Allowed(policy, s, steps)
    decreases |steps|
  {
    steps == [] || (!Frees(policy, s, steps[0], channel)
                    && NeverFrees(policy, Apply(policy, s, steps[0]), steps[1..], channel))
  }

  lemma {:induction false} StaysSuspended(policy: Policy, s: State, steps: seq<Step>, channel: Id)
    requires Allowed(policy, s, steps) && channel in s.tables.suspended && NeverFrees(policy, s, steps, channel)
    ensures channel in Run(policy, s, steps).tables.suspended
    decreases |steps|
  {
    if steps != [] {
      FreedExactly(policy, s, steps[0], channel);
      StaysSuspended(policy, Apply(policy, s, steps[0]), steps[1..], channel);
    }
  }

  /**
   A channel that a review decides to suspend or quarantine is suspended from then on, over any run of whatever
   else, until an operator or an accepted appeal in a case on it brings it back.
   */
  lemma SuspensionHolds(policy: Policy, s: State, id: Id, review: Review, users: int, action: Action, actionId: Id,
                        channel: Id, later: seq<Step>)
    requires Enabled(policy, s, Check(id, review, true)) && actionId !in s.tables.actions
    requires Met(users, ReviewsOf(s.tables, id) + [review]) && s.tables.cases[id].status == New
    requires CameOutFor(ReviewsOf(s.tables, id) + [review], action) && (action == Suspend || action == Quarantine)
    requires s.tables.cases[id].kind == Channel && policy.channels(s.tables.cases[id].target) == Some(channel)
    ensures var steps := ReviewSteps(id, review, users, action, actionId, ALL, true);
            && Allowed(policy, s, steps)
            && var t := Run(policy, s, steps);
               Allowed(policy, t, later) && NeverFrees(policy, t, later, channel)
               ==> channel in Run(policy, t, later).tables.suspended
  {
    ReviewLeaves(policy, s, id, review, users, action, actionId);
    var t := Run(policy, s, ReviewSteps(id, review, users, action, actionId, ALL, true));
    if Allowed(policy, t, later) && NeverFrees(policy, t, later, channel) {
      StaysSuspended(policy, t, later, channel);
    }
  }

  // ----- How long an action lasts

  /** An action is deleted by an accepted appeal whose case has the action's target, if it is one on a channel, and by
      nothing else. */
  lemma DeletedExactly(policy: Policy, s: State, step: Step, a: Id)
    requires Enabled(policy, s, step) && a in s.tables.actions
    ensures a in Apply(policy, s, step).tables.actions ==>
              Apply(policy, s, step).tables.actions[a] == s.tables.actions[a]
    ensures a !in Apply(policy, s, step).tables.actions <==>
              && step.DeleteActions? && s.others[step.h].accepted && s.others[step.h].id in s.tables.cases
              && s.tables.actions[a].kind == Channel
              && s.tables.actions[a].target == s.tables.cases[s.others[step.h].id].target
  {
  }

  // ----- What the status tells

  /** An appealed case has an appeal on file; the appeal of a closed one is decided. */
  predicate StatusFits(s: State, id: Id)
    requires id in s.tables.cases
  {
    && (s.tables.cases[id].status == Appealed ==> id in s.appeals)
    && (s.tables.cases[id].status == Closed ==> id in s.appeals && !s.appeals[id])
    && (s.tables.cases[id].status == Actioned ==> Decided(s.decisions, id) || s.tables.cases[id].kind == Channel)
  }

  /** So has one that is about to be marked. */
  predicate OtherFits(s: State, o: Other) {
    match o
    case AppealInserted(id) => id in s.appeals
    case ResolveRead(id, _) => id in s.appeals
    case ResolveDecided(id, _) => id in s.appeals && !s.appeals[id]
    case _ => true
  }

  predicate Telling(s: State) {
    && (forall id :: id in s.tables.cases ==> StatusFits(s, id))
    && (forall h :: h in s.others ==> OtherFits(s, s.others[h]))
  }

  /** An appeal stays on file, and once decided stays so. */
  lemma StepKeepsAppeal(policy: Policy, s: State, step: Step, id: Id)
    requires Enabled(policy, s, step) && id in s.appeals
    ensures id in Apply(policy, s, step).appeals && (!s.appeals[id] ==> !Apply(policy, s, step).appeals[id])
  {
  }

  lemma DecidedStays(before: seq<Decision>, after: seq<Decision>, id: Id)
    requires Decided(before, id) && before <= after
    ensures Decided(after, id)
  {
    var i :| 0 <= i < |before| && before[i].id == id;
    assert after[i] == before[i];
  }

  lemma StepKeepsOtherFits(policy: Policy, s: State, step: Step, h: nat)
    requires Telling(s) && Enabled(policy, s, step) && h in Apply(policy, s, step).others
    ensures OtherFits(Apply(policy, s, step), Apply(policy, s, step).others[h])
  {
    if h in s.others {
      assert OtherFits(s, s.others[h]);
      if s.others[h].id in s.appeals {
        StepKeepsAppeal(policy, s, step, s.others[h].id);
      }
    }
  }

  /** Whose turn it is to write a status. */
  lemma StepMarks(policy: Policy, s: State, step: Step, id: Id)
    requires Enabled(policy, s, step) && id in s.tables.cases
    ensures var before, after := s.tables.cases[id].status, Apply(policy, s, step).tables.cases[id].status;
            || after == before
            || (step.Decide? && s.turn.id == id && after == Actioned && Decided(Apply(policy, s, step).decisions, id))
            || (step.MarkAppealed? && s.others[step.h].id == id && after == Appealed)
            || (step.CloseCase? && s.others[step.h].id == id && after == Closed)
  {
    if step.Decide? && Apply(policy, s, step).turn.Acting? {
      assert Apply(policy, s, step).decisions[|s.decisions|].id == s.turn.id;
    }
  }

  lemma StepKeepsStatusFits(policy: Policy, s: State, step: Step, id: Id)
    requires Telling(s) && Enabled(policy, s, step) && id in Apply(policy, s, step).tables.cases
    ensures StatusFits(Apply(policy, s, step), id)
  {
    StepKeepsCases(policy, s, step);
    if id in s.tables.cases {
      assert StatusFits(s, id) && CaseStays(s.tables, Apply(policy, s, step).tables, id);
      StepMarks(policy, s, step, id);
      if id in s.appeals {
        StepKeepsAppeal(policy, s, step, id);
      }
      if Decided(s.decisions, id) {
        DecidedStays(s.decisions, Apply(policy, s, step).decisions, id);
      }
      if step.MarkAppealed? || step.CloseCase? {
        assert OtherFits(s, s.others[step.h]);
      }
    }
  }

  lemma StepKeepsTelling(policy: Policy, s: State, step: Step)
    requires Telling(s) && Enabled(policy, s, step)
    ensures Telling(Apply(policy, s, step))
  {
    var t := Apply(policy, s, step);
    forall id | id in t.tables.cases ensures StatusFits(t, id) {
      StepKeepsStatusFits(policy, s, step, id);
    }
    forall h | h in t.others ensures OtherFits(t, t.others[h]) {
      StepKeepsOtherFits(policy, s, step, h);
    }
  }

  lemma {:induction false} RunKeepsTelling(policy: Policy, s: State, steps: seq<Step>)
    requires Telling(s) && Allowed(policy, s, steps)
    ensures Telling(Run(policy, s, steps))
    decreases |steps|
  {
    if steps != [] {
      StepKeepsTelling(policy, s, steps[0]);
      RunKeepsTelling(policy, Apply(policy, s, steps[0]), steps[1..]);
    }
  }

  /**
   Over every run, whatever fails: an appealed case has an appeal, a closed one an appeal that was decided, and an
   actioned one was decided by its reviews unless it is on a channel, which an operator can report as actioned.
   */
  lemma StatusTells(policy: Policy, steps: seq<Step>, id: Id)
    requires Allowed(policy, Init(), steps) && id in Run(policy, Init(), steps).tables.cases
    ensures var s := Run(policy, Init(), steps);
            && (s.tables.cases[id].status == Appealed ==> id in s.appeals)
            && (s.tables.cases[id].status == Closed ==> id in s.appeals && !s.appeals[id])
            && (s.tables.cases[id].status == Actioned && s.tables.cases[id].kind != Channel
                ==> Decided(s.decisions, id))
  {
    RunKeepsTelling(policy, Init(), steps);
    assert StatusFits(Run(policy, Init(), steps), id);
  }
}
