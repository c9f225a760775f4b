/**
 What an accepted appeal is worth: what it lifts, and when that stays lifted. It deletes
 actions on channels alone, and a review that read its case as new before the appeal goes
 on to act on what it read.
 */
module Appeals {
  import opened Governance
  import opened Consensus

  predicate HasAct(t: Tables, id: Id) { exists a :: a in t.actions && t.actions[a].id == id }

  predicate HasSuspended(t: Tables, id: Id) { exists c :: c in t.suspended && t.suspended[c] == ByCase(id) }

  /** The case weighs on its target: by an action of any kind, or by a suspension. */
  predicate Marked(t: Tables, id: Id) { HasAct(t, id) || HasSuspended(t, id) }

  ghost predicate CanBeMet(reviews: seq<Review>) { exists users :: Met(users, reviews) }

  /** The review that holds the mutex read this case as new and has the votes, or has decided already. */
  ghost predicate Pending(s: State, id: Id) {
    match s.turn
    case Free => false
    case Checked(i, review, snapshot) => i == id && snapshot == New && CanBeMet(ReviewsOf(s.tables, id) + [review])
    case Recorded(i, snapshot) => i == id && snapshot == New && CanBeMet(ReviewsOf(s.tables, id))
    case Acting(i, _) => i == id
    case Suspending(i, _) => i == id
  }

  // ----- What is on file

  /** An appeal belongs to a case. */
  predicate AppealsFiled(s: State) {
    && (forall id :: id in s.appeals ==> id in s.tables.cases)
    && (forall h :: h in s.others ==> s.others[h].id in s.tables.cases)
  }

  lemma StepKeepsAppeals(policy: Policy, s: State, step: Step, id: Id)
    requires AppealsFiled(s) && Enabled(policy, s, step) && id in Apply(policy, s, step).appeals
    ensures id in s.tables.cases
  {
  }

  lemma StepKeepsOthers(policy: Policy, s: State, step: Step, h: nat)
    requires AppealsFiled(s) && Enabled(policy, s, step) && h in Apply(policy, s, step).others
    ensures Apply(policy, s, step).others[h].id in s.tables.cases
  {
  }

  lemma StepKeepsAppealsFiled(policy: Policy, s: State, step: Step)
    requires AppealsFiled(s) && Enabled(policy, s, step)
    ensures AppealsFiled(Apply(policy, s, step))
  {
    var t := Apply(policy, s, step);
    StepKeepsCases(policy, s, step);
    forall id | id in t.appeals ensures id in t.tables.cases {
      StepKeepsAppeals(policy, s, step, id);
      assert CaseStays(s.tables, t.tables, id);
    }
    forall h | h in t.others ensures t.others[h].id in t.tables.cases {
      StepKeepsOthers(policy, s, step, h);
      assert CaseStays(s.tables, t.tables, t.others[h].id);
    }
  }

  lemma {:induction false} RunKeepsAppealsFiled(policy: Policy, s: State, steps: seq<Step>)
    requires AppealsFiled(s) && Allowed(policy, s, steps)
    ensures AppealsFiled(Run(policy, s, steps))
    decreases |steps|
  {
    if steps != [] {
      StepKeepsAppealsFiled(policy, s, steps[0]);
      RunKeepsAppealsFiled(policy, Apply(policy, s, steps[0]), steps[1..]);
    }
  }

  predicate Closing(o: Other) { o.ResolveClosed? || o.ResolveReinstated? }

  /** Where updates do not fail, a decision that is past closing the case finds it past new. */
  predicate ClosedFiled(s: State) {
    AppealsFiled(s) && forall h :: h in s.others && Closing(s.others[h]) ==> PastNew(s.tables, s.others[h].id)
  }

  lemma StepKeepsClosedFiled(policy: Policy, s: State, step: Step)
    requires ClosedFiled(s) && Enabled(policy, s, step) && !policy.updatesFail
    ensures ClosedFiled(Apply(policy, s, step))
  {
    StepKeepsAppealsFiled(policy, s, step);
    var t := Apply(policy, s, step);
    forall h | h in t.others && Closing(t.others[h]) ensures PastNew(t.tables, t.others[h].id) {
      if h in s.others && Closing(s.others[h]) {
        PastNewStays(policy, s, step, s.others[h].id);
      }
    }
  }

  lemma {:induction false} RunKeepsClosedFiled(policy: Policy, s: State, steps: seq<Step>)
    requires ClosedFiled(s) && Allowed(policy, s, steps) && !policy.updatesFail
    ensures ClosedFiled(Run(policy, s, steps))
    decreases |steps|
  {
    if steps != [] {
      StepKeepsClosedFiled(policy, s, steps[0]);
      RunKeepsClosedFiled(policy, Apply(policy, s, steps[0]), steps[1..]);
    }
  }

  // ----- What the deletion leaves

  /** Of an action on a channel the case's own deletion leaves nothing; of another it leaves all. */
  lemma DeletionLeaves(policy: Policy, s: State, h: nat)
    requires Base(policy, s) && AppealsFiled(s) && Enabled(policy, s, DeleteActions(h)) && s.others[h].accepted
    ensures var id, t := s.others[h].id, Apply(policy, s, DeleteActions(h));
            !HasAct(t.tables, id) <==> s.tables.cases[id].kind.Channel? || !HasAct(s.tables, id)
  {
    var id, t := s.others[h].id, Apply(policy, s, DeleteActions(h));
    forall a | a in s.tables.actions && s.tables.actions[a].id == id
      ensures a in t.tables.actions <==> !s.tables.cases[id].kind.Channel?
    {
      assert ActFits(s.tables, s.decisions, s.tables.actions[a]);
    }
  }

  /** Over all runs: an accepted appeal leaves no action of its case, exactly if the case is on a channel or
      had none. */
  lemma LeavesNoneExactlyOnChannels(policy: Policy, before: seq<Step>, h: nat)
    requires Allowed(policy, Init(), before) && Enabled(policy, Run(policy, Init(), before), DeleteActions(h))
    requires Run(policy, Init(), before).others[h].accepted
    ensures var s := Run(policy, Init(), before);
            var id := s.others[h].id;
            && id in s.tables.cases
            && (!HasAct(Apply(policy, s, DeleteActions(h)).tables, id) <==>
                s.tables.cases[id].kind.Channel? || !HasAct(s.tables, id))
  {
    RunKeepsBase(policy, Init(), before);
    RunKeepsAppealsFiled(policy, Init(), before);
    DeletionLeaves(policy, Run(policy, Init(), before), h);
  }

  // ----- Nothing pending: nothing new

  /** No review is going to act on the case, and no suspension is its. */
  ghost predicate Quiet(s: State, id: Id) {
    PastNew(s.tables, id) && !Pending(s, id) && !HasSuspended(s.tables, id)
  }

  /** The actions of the case were there before. */
  predicate NoNewAct(t: Tables, u: Tables, id: Id) {
    forall a :: a in u.actions && u.actions[a].id == id ==> a in t.actions && t.actions[a] == u.actions[a]
  }

  lemma RecordStaysQuiet(policy: Policy, s: State, id: Id)
    requires Quiet(s, id) && Enabled(policy, s, Record)
    ensures Quiet(Apply(policy, s, Record), id)
  {
    if s.turn.id == id {
      RecordedReviews(s.tables, id, s.turn.review);
    }
  }

  lemma DecideStaysQuiet(policy: Policy, s: State, step: Step, id: Id)
    requires Quiet(s, id) && step.Decide? && Enabled(policy, s, step)
    ensures Quiet(Apply(policy, s, step), id)
  {
    PastNewStays(policy, s, step, id);
    if s.turn.id == id && s.turn.snapshot == New {
      assert !Met(step.users, ReviewsOf(s.tables, id));
    }
  }

  lemma CheckStaysQuiet(policy: Policy, s: State, step: Step, id: Id)
    requires Quiet(s, id) && step.Check? && Enabled(policy, s, step)
    ensures Quiet(Apply(policy, s, step), id)
  {
  }

  lemma StepLeavesUnsuspended(policy: Policy, s: State, step: Step, id: Id)
    requires !HasSuspended(s.tables, id) && (s.turn.Acting? ==> s.turn.id != id) && Enabled(policy, s, step)
    ensures !HasSuspended(Apply(policy, s, step).tables, id)
  {
    var t := Apply(policy, s, step);
    forall c | c in t.tables.suspended ensures t.tables.suspended[c] != ByCase(id) {
      if t.tables.suspended[c].ByCase? {
        StepSuspends(policy, s, step, c);
      }
    }
  }

  /** Steps that neither check, record nor decide take nothing up that was not under way. */
  lemma OtherStepIsNotPending(policy: Policy, s: State, step: Step, id: Id)
    requires !Pending(s, id) && !step.Check? && !step.Record? && !step.Decide? && Enabled(policy, s, step)
    ensures !Pending(Apply(policy, s, step), id)
  {
  }

  lemma StepStaysQuiet(policy: Policy, s: State, step: Step, id: Id)
    requires Quiet(s, id) && Enabled(policy, s, step)
    ensures Quiet(Apply(policy, s, step), id)
  {
    match step
    case Check(_, _, _) => CheckStaysQuiet(policy, s, step, id);
    case Record => RecordStaysQuiet(policy, s, id);
    case Decide(_, _, _) => DecideStaysQuiet(policy, s, step, id);
    case _ =>
      PastNewStays(policy, s, step, id);
      OtherStepIsNotPending(policy, s, step, id);
      StepLeavesUnsuspended(policy, s, step, id);
  }

  /** An action that was not there is of the case being acted on. */
  lemma StepActs(policy: Policy, s: State, step: Step, a: Id)
    requires Enabled(policy, s, step) && a in Apply(policy, s, step).tables.actions
    ensures var act := Apply(policy, s, step).tables.actions[a];
            || (a in s.tables.actions && s.tables.actions[a] == act)
            || (s.turn.Suspending? && act.id == s.turn.id)
  {
  }

  lemma StepAddsNoAct(policy: Policy, s: State, step: Step, id: Id)
    requires (s.turn.Suspending? ==> s.turn.id != id) && Enabled(policy, s, step)
    ensures NoNewAct(s.tables, Apply(policy, s, step).tables, id)
  {
    forall a | a in Apply(policy, s, step).tables.actions {
      StepActs(policy, s, step, a);
    }
  }

  lemma {:induction false} StaysQuiet(policy: Policy, s: State, steps: seq<Step>, id: Id)
    requires Quiet(s, id) && Allowed(policy, s, steps)
    ensures Quiet(Run(policy, s, steps), id) && NoNewAct(s.tables, Run(policy, s, steps).tables, id)
    decreases |steps|
  {
    if steps != [] {
      StepStaysQuiet(policy, s, steps[0], id);
      StepAddsNoAct(policy, s, steps[0], id);
      StaysQuiet(policy, Apply(policy, s, steps[0]), steps[1..], id);
    }
  }

  // ----- Something pending, or the case still new: marked again

  lemma {:induction false} Unused(ids: set<nat>) returns (n: nat)
    ensures forall i :: i in ids ==> i < n
    decreases |ids|
  {
    if ids == {} {
      n := 0;
    } else {
      var i :| i in ids;
      var m := Unused(ids - {i});
      n := if i < m then m else i + 1;
      forall j | j in ids ensures j < n {
        assert j == i || j in ids - {i};
      }
    }
  }

  lemma SuspendingMarks(policy: Policy, s: State) returns (steps: seq<Step>)
    requires s.turn.Suspending? && s.turn.id in s.tables.cases
    ensures Allowed(policy, s, steps) && HasAct(Run(policy, s, steps).tables, s.turn.id)
  {
    var a := Unused(s.tables.actions.Keys);
    assert a !in s.tables.actions;
    One(policy, s, CreateAction(a), []);
    steps := [CreateAction(a)] + [];
    assert Run(policy, s, steps).tables.actions[a].id == s.turn.id;
  }

  lemma ActingMarks(policy: Policy, s: State) returns (steps: seq<Step>)
    requires s.turn.Acting? && s.turn.id in s.tables.cases
    ensures Allowed(policy, s, steps) && HasAct(Run(policy, s, steps).tables, s.turn.id)
  {
    var rest := SuspendingMarks(policy, Apply(policy, s, SuspendChannel(true)));
    One(policy, s, SuspendChannel(true), rest);
    steps := [SuspendChannel(true)] + rest;
  }

  lemma RecordedMarks(policy: Policy, s: State) returns (steps: seq<Step>)
    requires s.turn.Recorded? && s.turn.snapshot == New && CanBeMet(ReviewsOf(s.tables, s.turn.id))
    requires s.turn.id in s.tables.cases
    ensures Allowed(policy, s, steps) && HasAct(Run(policy, s, steps).tables, s.turn.id)
  {
    var reviews := ReviewsOf(s.tables, s.turn.id);
    var users :| Met(users, reviews);
    MetHasWinner(users, reviews);
    var action :| CameOutFor(reviews, action);
    var rest := ActingMarks(policy, Apply(policy, s, Decide(users, action, true)));
    One(policy, s, Decide(users, action, true), rest);
    steps := [Decide(users, action, true)] + rest;
  }

  lemma PendingMarks(policy: Policy, s: State, id: Id) returns (steps: seq<Step>)
    requires Pending(s, id) && id in s.tables.cases
    ensures Allowed(policy, s, steps) && HasAct(Run(policy, s, steps).tables, id)
  {
    match s.turn
    case Checked(_, review, _) =>
      RecordedReviews(s.tables, id, review);
      var rest := RecordedMarks(policy, Apply(policy, s, Record));
      One(policy, s, Record, rest);
      steps := [Record] + rest;
    case Recorded(_, _) => steps := RecordedMarks(policy, s);
    case Acting(_, _) => steps := ActingMarks(policy, s);
    case Suspending(_, _) => steps := SuspendingMarks(policy, s);
  }

  /** A name longer than those of all reviewers so far. */
  lemma {:induction false} NewReviewer(reviews: seq<Review>) returns (name: string)
    ensures forall i :: 0 <= i < |reviews| ==> |reviews[i].reviewer| < |name|
  {
    if reviews == [] {
      name := "";
    } else {
      var last := reviews[|reviews| - 1].reviewer;
      name := NewReviewer(reviews[..|reviews| - 1]);
      name := if |last| < |name| then name else last + ['x'];
    }
  }

  /** A new case can always be acted on: the review under way ends, and a reviewer new to the case comes. */
  lemma NewMarks(policy: Policy, s: State, id: Id) returns (steps: seq<Step>)
    requires id in s.tables.cases && s.tables.cases[id].status == New
    ensures Allowed(policy, s, steps) && HasAct(Run(policy, s, steps).tables, id)
  {
    var reviewer := NewReviewer(ReviewsOf(s.tables, id));
    var review := Review(reviewer, Critical, Suspend);
    var check, s1 := Check(id, review, true), Apply(policy, s, Stop);
    assert Enabled(policy, s1, check);
    CriticalVoteMeets(ReviewsOf(s.tables, id), review);
    var rest := PendingMarks(policy, Apply(policy, s1, check), id);
    One(policy, s1, check, rest);
    One(policy, s, Stop, [check] + rest);
    steps := [Stop] + ([check] + rest);
  }

  /** Whatever follows, the case weighs on nothing. */
  ghost predicate StaysLifted(policy: Policy, s: State, id: Id) {
    forall steps :: Allowed(policy, s, steps) ==> !Marked(Run(policy, s, steps).tables, id)
  }

  /** A case that can be acted on, now or later, is so in some run. */
  lemma CanBeMarked(policy: Policy, s: State, id: Id) returns (steps: seq<Step>)
    requires id in s.tables.cases && (!PastNew(s.tables, id) || Pending(s, id))
    ensures Allowed(policy, s, steps) && HasAct(Run(policy, s, steps).tables, id)
  {
    if Pending(s, id) {
      steps := PendingMarks(policy, s, id);
    } else {
      steps := NewMarks(policy, s, id);
    }
  }

  /** A case that weighs on nothing never will, exactly if it is past new and no review is going to act on it. */
  lemma StaysLiftedExactly(policy: Policy, s: State, id: Id)
    requires id in s.tables.cases && !Marked(s.tables, id)
    ensures StaysLifted(policy, s, id) <==> PastNew(s.tables, id) && !Pending(s, id)
  {
    if !PastNew(s.tables, id) || Pending(s, id) {
      var steps := CanBeMarked(policy, s, id);
      assert Allowed(policy, s, steps) && Marked(Run(policy, s, steps).tables, id);
    } else {
      forall steps | Allowed(policy, s, steps) ensures !Marked(Run(policy, s, steps).tables, id) {
        StaysQuiet(policy, s, steps, id);
      }
    }
  }

  // ----- An accepted appeal, from the reinstatement on

  predicate Moves(step: Step, h: nat) {
    match step
    case InsertAppeal(i) => i == h
    case MarkAppealed(i, _) => i == h
    case DecideAppeal(i) => i == h
    case CloseCase(i, _) => i == h
    case Reinstate(i, _) => i == h
    case DeleteActions(i) => i == h
    case Drop(i) => i == h
    case _ => false
  }

  /** The channel is reinstated, others take their steps, the actions are deleted, and whatever follows. */
  ghost predicate Resolving(policy: Policy, s: State, h: nat, between: seq<Step>, after: seq<Step>) {
    && Enabled(policy, s, Reinstate(h, true)) && (forall i :: 0 <= i < |between| ==> !Moves(between[i], h))
    && var s1 := Apply(policy, s, Reinstate(h, true));
       && Allowed(policy, s1, between)
       && var s2 := Run(policy, s1, between);
          Enabled(policy, s2, DeleteActions(h)) && Allowed(policy, Apply(policy, s2, DeleteActions(h)), after)
  }

  ghost function Resolved(policy: Policy, s: State, h: nat, between: seq<Step>, after: seq<Step>): State
    requires Resolving(policy, s, h, between, after)
  {
    var s2 := Run(policy, Apply(policy, s, Reinstate(h, true)), between);
    Run(policy, Apply(policy, s2, DeleteActions(h)), after)
  }

  /** However the statements of the appeal fall among others, its case weighs on nothing from then on. */
  ghost predicate LiftedForGood(policy: Policy, s: State, h: nat) {
    forall between, after :: Resolving(policy, s, h, between, after) ==>
      !Marked(Resolved(policy, s, h, between, after).tables, s.others[h].id)
  }

  lemma StepLeavesHandler(policy: Policy, s: State, step: Step, h: nat)
    requires Enabled(policy, s, step) && !Moves(step, h) && h in s.others
    ensures h in Apply(policy, s, step).others && Apply(policy, s, step).others[h] == s.others[h]
  {
  }

  lemma {:induction false} RunLeavesHandler(policy: Policy, s: State, steps: seq<Step>, h: nat)
    requires Allowed(policy, s, steps) && h in s.others && forall i :: 0 <= i < |steps| ==> !Moves(steps[i], h)
    ensures h in Run(policy, s, steps).others && Run(policy, s, steps).others[h] == s.others[h]
    decreases |steps|
  {
    if steps != [] {
      StepLeavesHandler(policy, s, steps[0], h);
      RunLeavesHandler(policy, Apply(policy, s, steps[0]), steps[1..], h);
    }
  }

  lemma {:induction false} RunKeepsKind(policy: Policy, s: State, steps: seq<Step>, id: Id)
    requires Allowed(policy, s, steps) && id in s.tables.cases
    ensures id in Run(policy, s, steps).tables.cases
    ensures Run(policy, s, steps).tables.cases[id].kind == s.tables.cases[id].kind
    decreases |steps|
  {
    if steps != [] {
      StepKeepsCases(policy, s, steps[0]);
      RunKeepsKind(policy, Apply(policy, s, steps[0]), steps[1..], id);
    }
  }

  lemma ReinstatementIsQuiet(policy: Policy, s: State, h: nat)
    requires Base(policy, s) && AppealsFiled(s) && Enabled(policy, s, Reinstate(h, true)) && s.others[h].accepted
    requires PastNew(s.tables, s.others[h].id) && !Pending(s, s.others[h].id)
    ensures Quiet(Apply(policy, s, Reinstate(h, true)), s.others[h].id)
  {
    var id, t := s.others[h].id, Apply(policy, s, Reinstate(h, true));
    forall c | c in s.tables.suspended && s.tables.suspended[c] == ByCase(id) ensures c !in t.tables.suspended {
      assert CauseFits(policy, s.tables, s.decisions, c, id);
    }
  }

  /** The condition under which an accepted appeal lifts for good. */
  ghost predicate CanLift(s: State, id: Id)
    requires id in s.tables.cases
  {
    PastNew(s.tables, id) && !Pending(s, id) && (s.tables.cases[id].kind.Channel? || !HasAct(s.tables, id))
  }

  /** Between the reinstatement and the deletion the case stays quiet, and gets no action it did not have. */
  lemma QuietBetween(policy: Policy, s1: State, h: nat, between: seq<Step>)
    requires Base(policy, s1) && AppealsFiled(s1) && h in s1.others && Quiet(s1, s1.others[h].id)
    requires Allowed(policy, s1, between) && forall i :: 0 <= i < |between| ==> !Moves(between[i], h)
    ensures var s2, id := Run(policy, s1, between), s1.others[h].id;
            && Base(policy, s2) && AppealsFiled(s2) && Quiet(s2, id) && h in s2.others && s2.others[h] == s1.others[h]
            && (HasAct(s2.tables, id) ==> HasAct(s1.tables, id))
            && id in s1.tables.cases && id in s2.tables.cases
            && s2.tables.cases[id].kind == s1.tables.cases[id].kind
  {
    var id := s1.others[h].id;
    StaysQuiet(policy, s1, between, id);
    RunKeepsBase(policy, s1, between);
    RunKeepsAppealsFiled(policy, s1, between);
    RunLeavesHandler(policy, s1, between, h);
    RunKeepsKind(policy, s1, between, id);
  }

  lemma DeletionIsQuiet(policy: Policy, s: State, h: nat)
    requires Base(policy, s) && AppealsFiled(s) && Enabled(policy, s, DeleteActions(h)) && s.others[h].accepted
    requires Quiet(s, s.others[h].id)
    requires s.tables.cases[s.others[h].id].kind.Channel? || !HasAct(s.tables, s.others[h].id)
    ensures var t := Apply(policy, s, DeleteActions(h));
            Quiet(t, s.others[h].id) && !HasAct(t.tables, s.others[h].id)
  {
    DeletionLeaves(policy, s, h);
    StepStaysQuiet(policy, s, DeleteActions(h), s.others[h].id);
  }

  lemma LiftsBetween(policy: Policy, s: State, h: nat, between: seq<Step>)
    requires Base(policy, s) && AppealsFiled(s) && Resolving(policy, s, h, between, [])
    requires s.others[h].accepted && CanLift(s, s.others[h].id)
    ensures var t := Resolved(policy, s, h, between, []);
            Quiet(t, s.others[h].id) && !HasAct(t.tables, s.others[h].id)
  {
    var s1 := Apply(policy, s, Reinstate(h, true));
    ReinstatementIsQuiet(policy, s, h);
    StepKeepsBase(policy, s, Reinstate(h, true));
    StepKeepsAppealsFiled(policy, s, Reinstate(h, true));
    QuietBetween(policy, s1, h, between);
    DeletionIsQuiet(policy, Run(policy, s1, between), h);
  }

  /** Undisturbed, the two statements leave the review in progress, the status and other kinds of action alone. */
  lemma ResolvedAtOnce(policy: Policy, s: State, h: nat)
    requires Base(policy, s) && AppealsFiled(s) && Enabled(policy, s, Reinstate(h, true)) && s.others[h].accepted
    ensures Resolving(policy, s, h, [], [])
    ensures var id, t := s.others[h].id, Resolved(policy, s, h, [], []);
            && id in t.tables.cases && t.turn == s.turn && t.tables.reviews == s.tables.reviews
            && t.tables.cases == s.tables.cases
            && (!s.tables.cases[id].kind.Channel? && HasAct(s.tables, id) ==> HasAct(t.tables, id))
  {
    var s1 := Apply(policy, s, Reinstate(h, true));
    StepKeepsBase(policy, s, Reinstate(h, true));
    StepKeepsAppealsFiled(policy, s, Reinstate(h, true));
    DeletionLeaves(policy, s1, h);
  }

  lemma MarkedAfterAll(policy: Policy, s: State, h: nat)
    requires Base(policy, s) && AppealsFiled(s) && Enabled(policy, s, Reinstate(h, true)) && s.others[h].accepted
    requires !CanLift(s, s.others[h].id)
    ensures !LiftedForGood(policy, s, h)
  {
    var id := s.others[h].id;
    ResolvedAtOnce(policy, s, h);
    var t := Resolved(policy, s, h, [], []);
    var after := [];
    if !PastNew(s.tables, id) || Pending(s, id) {
      after := CanBeMarked(policy, t, id);
    }
    assert Resolving(policy, s, h, [], after);
    assert Marked(Resolved(policy, s, h, [], after).tables, id);
  }

  /**
   In every reachable state, an accepted appeal about to reinstate, whose update of the channel goes through,
   lifts what its case weighs on its target for good, however its statements fall among those of others, exactly
   when the case is past new, no review is under way that read it as new and has the votes, and the case is on a
   channel or has no action. The case is past new at that point unless an update failed.
   */
  lemma LiftedForGoodExactly(policy: Policy, before: seq<Step>, h: nat)
    requires Allowed(policy, Init(), before) && Enabled(policy, Run(policy, Init(), before), Reinstate(h, true))
    requires Run(policy, Init(), before).others[h].accepted
    ensures var s := Run(policy, Init(), before);
            && s.others[h].id in s.tables.cases
            && (LiftedForGood(policy, s, h) <==> CanLift(s, s.others[h].id))
            && (!policy.updatesFail ==> PastNew(s.tables, s.others[h].id))
  {
    RunKeepsBase(policy, Init(), before);
    RunKeepsAppealsFiled(policy, Init(), before);
    if !policy.updatesFail {
      RunKeepsClosedFiled(policy, Init(), before);
    }
    var s := Run(policy, Init(), before);
    if CanLift(s, s.others[h].id) {
      forall between, after | Resolving(policy, s, h, between, after)
        ensures !Marked(Resolved(policy, s, h, between, after).tables, s.others[h].id)
      {
        assert Resolving(policy, s, h, between, []);
        LiftsBetween(policy, s, h, between);
        StaysQuiet(policy, Resolved(policy, s, h, between, []), after, s.others[h].id);
      }
    } else {
      MarkedAfterAll(policy, s, h);
    }
  }

  // ----- Such runs

  /** Appealed, whatever review is under way. */
  lemma AppealedMeanwhile(policy: Policy, s0: State) returns (s: State)
    requires Reachable(policy, s0) && s0.others == map[] && s0.appeals == map[] && 0 in s0.tables.cases
    ensures Reachable(policy, s)
    ensures s == s0.(tables := WithStatus(s0.tables, 0, Appealed), appeals := map[0 := true])
  {
    s := Go(policy, s0, ReadForAppeal(0, 0));
    s := Go(policy, s, InsertAppeal(0));
    s := Go(policy, s, MarkAppealed(0, true));
  }

  /** And decided. */
  lemma DecidedMeanwhile(policy: Policy, s0: State, resolver: string) returns (s: State)
    requires Reachable(policy, s0) && s0.others == map[] && s0.appeals == map[0 := true]
    requires !Reviewed(s0.tables, 0, resolver)
    ensures Reachable(policy, s) && s.tables == s0.tables && s.turn == s0.turn
    ensures s.others == map[0 := ResolveDecided(0, true)]
  {
    s := Go(policy, s0, ReadForResolve(0, 0, resolver, true));
    s := Go(policy, s, DecideAppeal(0));
  }

  /** And the case closed, up to the reinstatement. */
  lemma ClosedMeanwhile(policy: Policy, s0: State) returns (s: State)
    requires Reachable(policy, s0) && s0.others == map[0 := ResolveDecided(0, true)]
    ensures Reachable(policy, s) && s.tables == WithStatus(s0.tables, 0, Closed) && s.turn == s0.turn
    ensures s.others == map[0 := ResolveClosed(0, true)]
  {
    s := Go(policy, s0, CloseCase(0, true));
  }

  lemma StatusTwice(t: Tables, id: Id, first: Status, second: Status)
    ensures WithStatus(WithStatus(t, id, first), id, second) == WithStatus(t, id, second)
  {
  }

  lemma AcceptedMeanwhile(policy: Policy, s0: State, resolver: string) returns (s: State)
    requires Reachable(policy, s0) && s0.others == map[] && s0.appeals == map[] && 0 in s0.tables.cases
    requires !Reviewed(s0.tables, 0, resolver)
    ensures Reachable(policy, s) && s.turn == s0.turn && s.others == map[0 := ResolveClosed(0, true)]
    ensures s.tables == WithStatus(s0.tables, 0, Closed)
  {
    s := AppealedMeanwhile(policy, s0);
    assert ReviewsOf(s.tables, 0) == ReviewsOf(s0.tables, 0);
    s := DecidedMeanwhile(policy, s, resolver);
    s := ClosedMeanwhile(policy, s);
    StatusTwice(s0.tables, 0, Appealed, Closed);
  }

  /** So an action can outlive the appeal that was to lift it, even on a channel and with nothing failing. */
  lemma ActionOutlivesAppeal(policy: Policy, target: string, review: Review, resolver: string)
    requires review.severity.Critical? && Votes(review)
    ensures exists s, h :: && Reachable(policy, s) && Enabled(policy, s, Reinstate(h, true)) && s.others[h].accepted
                           && s.others[h].id in s.tables.cases && s.tables.cases[s.others[h].id].kind.Channel?
                           && Pending(s, s.others[h].id)
  {
    var s := Opened(policy, Channel, target);
    s := Go(policy, s, Check(0, review, true));
    s := AcceptedMeanwhile(policy, s, resolver);
    CriticalVoteMeets([], review);
    assert ReviewsOf(s.tables, 0) + [review] == [] + [review];
    assert Enabled(policy, s, Reinstate(0, true)) && s.others[0].accepted && Pending(s, 0);
  }

  /** A case of any kind, reviewed once and decided on. */
  lemma DecidedAlone(policy: Policy, kind: Kind, target: string, review: Review) returns (s: State)
    requires review.severity.Critical? && Votes(review)
    ensures Reachable(policy, s) && s.turn.Acting? && s.turn.id == 0 && s.others == map[] && s.appeals == map[]
    ensures 0 in s.tables.cases && s.tables.cases[0].kind == kind && s.tables.actions == map[]
    ensures ReviewsOf(s.tables, 0) == [review]
  {
    var s0 := Opened(policy, kind, target);
    CriticalVoteMeets([], review);
    assert ReviewsOf(s0.tables, 0) + [review] == [] + [review] == [review];
    MetHasWinner(1, [review]);
    var action :| CameOutFor([review], action);
    CheckAndRecord(policy, s0, 0, review, true);
    DecideOnce(policy, s0, 0, review, 1, action, true);
    s := Go(policy, s0, Check(0, review, true));
    s := Go(policy, s, Record);
    s := Go(policy, s, Decide(1, action, true));
    RecordedReviews(s0.tables, 0, review);
  }

  /** And acted on. */
  lemma ActedOn(policy: Policy, kind: Kind, target: string, review: Review) returns (s: State)
    requires review.severity.Critical? && Votes(review)
    ensures Reachable(policy, s) && s.turn.Free? && s.others == map[] && s.appeals == map[]
    ensures 0 in s.tables.cases && s.tables.cases[0].kind == kind && HasAct(s.tables, 0)
    ensures ReviewsOf(s.tables, 0) == [review]
  {
    s := DecidedAlone(policy, kind, target, review);
    s := Go(policy, s, SuspendChannel(true));
    s := Go(policy, s, CreateAction(0));
    assert s.tables.actions[0].id == 0;
  }

  /** An accepted appeal on anything but a channel leaves the action where it is, with nothing failing, the case
      past new and no review under way. */
  lemma OtherKindsKeepTheirAction(policy: Policy, kind: Kind, target: string, review: Review, resolver: string)
    requires !kind.Channel? && review.severity.Critical? && Votes(review) && resolver != review.reviewer
    ensures exists s, h :: && Reachable(policy, s) && Enabled(policy, s, Reinstate(h, true)) && s.others[h].accepted
                           && s.others[h].id in s.tables.cases && s.tables.cases[s.others[h].id].kind == kind
                           && s.turn.Free? && PastNew(s.tables, s.others[h].id)
                           && !LiftedForGood(policy, s, h)
  {
    var s := ActedOn(policy, kind, target, review);
    s := AcceptedMeanwhile(policy, s, resolver);
    var before :| Allowed(policy, Init(), before) && Run(policy, Init(), before) == s;
    assert Enabled(policy, s, Reinstate(0, true)) && s.others[0].accepted;
    assert HasAct(s.tables, 0);
    LiftedForGoodExactly(policy, before, 0);
  }
}
