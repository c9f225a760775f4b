/**
 Every run of reviews, appeals and appeal decisions on abuse cases. A review holds
 the service's mutex from its first read to its last write; appeals and their
 decisions do not, so their statements fall in between. Of a statement that fails the
 service mostly does not take notice.
 */
module Consensus {
  import opened Wrappers
  import opened Governance
  import opened VoteTexts

  type Id = nat

  datatype Status = New | Actioned | Appealed | Closed

  /** What a report is about. */
  datatype Kind = Channel | Room | User | Message | Post

  datatype Case = Case(status: Status, kind: Kind, target: string)

  /** A row of `abuse_actions`. */
  datatype Act = Act(id: Id, action: Action, kind: Kind, target: string)

  /** Who suspended a public channel last. */
  datatype Cause = ByOperator | ByCase(id: Id)

  datatype Tables = Tables(cases: map<Id, Case>, reviews: map<Id, seq<Review>>, actions: map<Id, Act>,
                           suspended: map<Id, Cause>)

  /** The public channel a target text is the id of. */
  type Channels = string -> Option<Id>

  /** An action on a post is kept as one on a message. */
  function KindOfAct(kind: Kind): Kind { if kind.Post? then Message else kind }

  function ActFor(id: Id, c: Case, action: Action): Act { Act(id, action, KindOfAct(c.kind), c.target) }

  function ReviewsOf(t: Tables, id: Id): seq<Review> {
    if id in t.reviews then t.reviews[id] else []
  }

  predicate Reviewed(t: Tables, id: Id, reviewer: string) {
    exists i :: 0 <= i < |ReviewsOf(t, id)| && ReviewsOf(t, id)[i].reviewer == reviewer
  }

  function WithReview(t: Tables, id: Id, review: Review): Tables {
    t.(reviews := t.reviews[id := ReviewsOf(t, id) + [review]])
  }

  function WithStatus(t: Tables, id: Id, status: Status): Tables {
    if id in t.cases then t.(cases := t.cases[id := t.cases[id].(status := status)]) else t
  }

  predicate Suspends(action: Action) { action.Suspend? || action.Quarantine? }

  /** The channel an action on the case suspends, if it is one that does. */
  function Struck(channels: Channels, c: Case, action: Action): Option<Id> {
    if c.kind.Channel? && Suspends(action) then channels(c.target) else None
  }

  function WithSuspension(t: Tables, channel: Option<Id>, cause: Cause): Tables {
    if channel.Some? then t.(suspended := t.suspended[channel.value := cause]) else t
  }

  // ----- One review, undisturbed

  /** Which statements of a review go through: the two reads of the reviews, the new status, the suspension,
      the action. */
  datatype Store = Store(read: bool, reread: bool, updated: bool, suspended: bool, created: bool)

  /** What a review that acts on a case leaves, as far as its writes go through. */
  function Acted(t: Tables, channels: Channels, store: Store, id: Id, c: Case, action: Action, actionId: Id): Tables {
    var u := if store.updated then WithStatus(t, id, Actioned) else t;
    var v := if store.suspended then WithSuspension(u, Struck(channels, c, action), ByCase(id)) else u;
    if store.created then v.(actions := v.actions[actionId := ActFor(id, c, action)]) else v
  }

  class Service {
    const channels: Channels
    const lower: char -> char
    var cases: map<Id, Case>
    var reviews: map<Id, seq<Review>>
    var actions: map<Id, Act>
    var suspended: map<Id, Cause>

    ghost function Contents(): Tables
      reads this
    {
      Tables(cases, reviews, actions, suspended)
    }

    /** The second half: tally what is there, and act if it is enough and the case was new. */
    method ActOn(id: Id, users: int, actionId: Id, store: Store)
      requires id in cases && id in reviews
      modifies this`cases, this`actions, this`suspended
      ensures var seen := reviews[id];
        if Met(users, seen) && old(cases)[id].status == New
        then exists action :: CameOutFor(seen, action)
               && Contents() == Acted(old(Contents()), channels, store, id, old(cases)[id], action, actionId)
        else Contents() == old(Contents())
    {
      var found := cases[id];
      var ballot, voters, points := Tally(reviews[id]);
      if |voters| >= MinReviewers(users) && points >= MinPoints(users) && found.status == New {
        var winner := ConsensusActionType(ballot);
        var action := if winner.Some? then winner.value else Quarantine;
        MetHasWinner(users, reviews[id]);
        assert CameOutFor(reviews[id], action);
        if store.updated {
          cases := cases[id := found.(status := Actioned)];
        }
        if found.kind.Channel? && (action.Suspend? || action.Quarantine?) {
          var channel := channels(found.target);
          if channel.Some? && store.suspended {
            suspended := suspended[channel.value := ByCase(id)];
          }
        }
        var kind := if found.kind.Post? then Message else found.kind;
        if store.created {
          actions := actions[actionId := Act(id, action, kind, found.target)];
        }
      }
    }

    method HasReviewed(id: Id, reviewer: string) returns (found: bool)
      ensures found == Reviewed(Contents(), id, reviewer)
    {
      var existing := if id in reviews then reviews[id] else [];
      assert existing == ReviewsOf(Contents(), id);
      for i := 0 to |existing|
        invariant forall j :: 0 <= j < i ==> existing[j].reviewer != reviewer
      {
        if existing[i].reviewer == reviewer {
          return true;
        }
      }
      return false;
    }

    /**
     `ReviewCase`, with the node's user count and the id of a possible action. False is the error that a vote
     is not a listed one, the case is unknown, the reviewer unauthorized or seen not to be new to it.
     */
    method ReviewCase(id: Id, reviewer: string, vote: Vote, authorized: bool, users: int, actionId: Id, store: Store)
      returns (ok: bool)
      modifies this`cases, this`reviews, this`actions, this`suspended
      ensures ok <==> ReviewOf(lower, reviewer, vote).Some? && id in old(cases) && authorized
                      && (store.read ==> !Reviewed(old(Contents()), id, reviewer))
      ensures !ok ==> Contents() == old(Contents())
      ensures ok ==>
        var recorded := WithReview(old(Contents()), id, ReviewOf(lower, reviewer, vote).value);
        var seen := ReviewsOf(recorded, id);
        if store.reread && Met(users, seen) && old(cases)[id].status == New
        then exists action :: CameOutFor(seen, action)
               && Contents() == Acted(recorded, channels, store, id, old(cases)[id], action, actionId)
        else Contents() == recorded
    {
      var review := ReviewOf(lower, reviewer, vote);
      if review.None? {
        return false;
      }
      if id !in cases {
        return false;
      }
      if !authorized {
        return false;
      }
      if store.read {
        var found := HasReviewed(id, reviewer);
        if found {
          return false;
        }
      }
      var existing := if id in reviews then reviews[id] else [];
      reviews := reviews[id := existing + [review.value]];
      ok := true;
      if store.reread {
        ActOn(id, users, actionId, store);
      }
    }
  }

  // ----- Every interleaving

  /** Where the review that holds the mutex stands. */
  datatype Turn =
    | Free
    | Checked(id: Id, review: Review, snapshot: Status)
    | Recorded(id: Id, snapshot: Status)
    | Acting(id: Id, action: Action)
    | Suspending(id: Id, action: Action)

  /** An appeal or an appeal decision between two statements. */
  datatype Other =
    | AppealRead(id: Id)
    | AppealInserted(id: Id)
    | ResolveRead(id: Id, accepted: bool)
    | ResolveDecided(id: Id, accepted: bool)
    | ResolveClosed(id: Id, accepted: bool)
    | ResolveReinstated(id: Id, accepted: bool)

  /** What a review decided on, and on what. */
  datatype Decision = Decision(id: Id, action: Action, users: int, seen: seq<Review>)

  /** `appeals` holds, per case with an appeal, whether it is still pending. */
  datatype State = State(tables: Tables, appeals: map<Id, bool>, turn: Turn, others: map<nat, Other>,
                         decisions: seq<Decision>)

  function Init(): State {
    State(Tables(map[], map[], map[], map[]), map[], Free, map[], [])
  }

  /** Whether a read of the reviews, or an update of a case's status, may fail unnoticed. That of a channel always
      may. */
  datatype Policy = Policy(readsFail: bool, updatesFail: bool, channels: Channels)

  /** A request that is dropped, or whose process stops, is `Stop` or `Drop`. */
  datatype Step =
    | Open(id: Id, status: Status, kind: Kind, target: string)
    | Check(id: Id, review: Review, read: bool)
    | Record
    | Decide(users: int, action: Action, updated: bool)
    | SuspendChannel(updated: bool)
    | CreateAction(actionId: Id)
    | Stop
    | Operate(channel: Id, suspend: bool)
    | ReadForAppeal(h: nat, id: Id)
    | InsertAppeal(h: nat)
    | MarkAppealed(h: nat, updated: bool)
    | ReadForResolve(h: nat, id: Id, resolver: string, accepted: bool)
    | DecideAppeal(h: nat)
    | CloseCase(h: nat, updated: bool)
    | Reinstate(h: nat, updated: bool)
    | DeleteActions(h: nat)
    | Drop(h: nat)

  predicate Enabled(policy: Policy, s: State, step: Step) {
    match step
    case Open(id, status, kind, _) => id !in s.tables.cases && (status.New? || (status.Actioned? && kind.Channel?))
    case Check(id, review, read) =>
      && s.turn.Free? && id in s.tables.cases
      && if read then !Reviewed(s.tables, id, review.reviewer) else policy.readsFail
    case Record => s.turn.Checked?
    case Decide(users, action, updated) =>
      && s.turn.Recorded? && (updated || policy.updatesFail)
      && (Met(users, ReviewsOf(s.tables, s.turn.id)) ==> CameOutFor(ReviewsOf(s.tables, s.turn.id), action))
    case SuspendChannel(_) => s.turn.Acting?
    case CreateAction(actionId) => s.turn.Suspending? && actionId !in s.tables.actions
    case Stop => true
    case Operate(_, _) => true
    case ReadForAppeal(h, id) => h !in s.others && id in s.tables.cases && (id in s.appeals ==> policy.readsFail)
    case InsertAppeal(h) => h in s.others && s.others[h].AppealRead?
    case MarkAppealed(h, updated) => h in s.others && s.others[h].AppealInserted? && (updated || policy.updatesFail)
    case ReadForResolve(h, id, resolver, _) =>
      && h !in s.others && id in s.appeals && s.appeals[id]
      && (Reviewed(s.tables, id, resolver) ==> policy.readsFail)
    case DecideAppeal(h) => h in s.others && s.others[h].ResolveRead?
    case CloseCase(h, updated) => h in s.others && s.others[h].ResolveDecided? && (updated || policy.updatesFail)
    case Reinstate(h, _) => h in s.others && s.others[h].ResolveClosed?
    case DeleteActions(h) => h in s.others && s.others[h].ResolveReinstated?
    case Drop(h) => h in s.others
  }

  function Apply(policy: Policy, s: State, step: Step): State
    requires Enabled(policy, s, step)
  {
    match step
    case Open(id, status, kind, target) =>
      s.(tables := s.tables.(cases := s.tables.cases[id := Case(status, kind, target)]))
    case Check(id, review, _) => s.(turn := Checked(id, review, s.tables.cases[id].status))
    case Record =>
      s.(tables := WithReview(s.tables, s.turn.id, s.turn.review), turn := Recorded(s.turn.id, s.turn.snapshot))
    case Decide(users, action, updated) =>
      var seen := ReviewsOf(s.tables, s.turn.id);
      if Met(users, seen) && s.turn.snapshot == New
      then s.(tables := Updated(s.tables, s.turn.id, Actioned, updated), turn := Acting(s.turn.id, action),
              decisions := s.decisions + [Decision(s.turn.id, action, users, seen)])
      else s.(turn := Free)
    case SuspendChannel(updated) =>
      s.(tables := if updated then Suspended(policy, s.tables, s.turn.id, s.turn.action) else s.tables,
         turn := Suspending(s.turn.id, s.turn.action))
    case CreateAction(actionId) =>
      s.(tables := if s.turn.id in s.tables.cases then WithAct(s.tables, actionId, s.turn.id, s.turn.action)
                   else s.tables,
         turn := Free)
    case Stop => s.(turn := Free)
    case Operate(channel, suspend) =>
      s.(tables := s.tables.(suspended := if suspend then s.tables.suspended[channel := ByOperator]
                                          else s.tables.suspended - {channel}))
    case ReadForAppeal(h, id) => s.(others := s.others[h := AppealRead(id)])
    case InsertAppeal(h) =>
      var id := s.others[h].id;
      s.(appeals := if id in s.appeals then s.appeals else s.appeals[id := true],
         others := s.others[h := AppealInserted(id)])
    case MarkAppealed(h, updated) =>
      s.(tables := Updated(s.tables, s.others[h].id, Appealed, updated), others := s.others - {h})
    case ReadForResolve(h, id, _, accepted) => s.(others := s.others[h := ResolveRead(id, accepted)])
    case DecideAppeal(h) =>
      var ResolveRead(id, accepted) := s.others[h];
      s.(appeals := s.appeals[id := false], others := s.others[h := ResolveDecided(id, accepted)])
    case CloseCase(h, updated) =>
      var ResolveDecided(id, accepted) := s.others[h];
      s.(tables := Updated(s.tables, id, Closed, updated), others := s.others[h := ResolveClosed(id, accepted)])
    case Reinstate(h, updated) =>
      var ResolveClosed(id, accepted) := s.others[h];
      s.(tables := if accepted && updated && id in s.tables.cases then Reinstated(policy, s.tables, id) else s.tables,
         others := s.others[h := ResolveReinstated(id, accepted)])
    case DeleteActions(h) =>
      var ResolveReinstated(id, accepted) := s.others[h];
      s.(tables := if accepted && id in s.tables.cases then Lifted(s.tables, s.tables.cases[id].target) else s.tables,
         others := s.others - {h})
    case Drop(h) => s.(others := s.others - {h})
  }

  function Suspended(policy: Policy, t: Tables, id: Id, action: Action): Tables {
    if id in t.cases then WithSuspension(t, Struck(policy.channels, t.cases[id], action), ByCase(id)) else t
  }

  function WithAct(t: Tables, actionId: Id, id: Id, action: Action): Tables
    requires id in t.cases
  {
    t.(actions := t.actions[actionId := ActFor(id, t.cases[id], action)])
  }

  /** An accepted appeal ends the suspension of the channel its target is, whoever asked for it. */
  function Reinstated(policy: Policy, t: Tables, id: Id): Tables
    requires id in t.cases
  {
    var channel := policy.channels(t.cases[id].target);
    if channel.Some? then t.(suspended := t.suspended - {channel.value}) else t
  }

  function Updated(t: Tables, id: Id, status: Status, updated: bool): Tables {
    if updated then WithStatus(t, id, status) else t
  }

  predicate OnChannel(act: Act, target: string) { act.kind.Channel? && act.target == target }

  /** It deletes every action on a channel of that target, and none of another kind. */
  function Lifted(t: Tables, target: string): Tables {
    t.(actions := map a | a in t.actions && !OnChannel(t.actions[a], target) :: t.actions[a])
  }

  predicate Allowed(policy: Policy, s: State, steps: seq<Step>)
    decreases |steps|
  {
    steps == [] || (Enabled(policy, s, steps[0]) && Allowed(policy, Apply(policy, s, steps[0]), steps[1..]))
  }

  function Run(policy: Policy, s: State, steps: seq<Step>): State
    requires Allowed(policy, s, steps)
    decreases |steps|
  {
    if steps == [] then s else Run(policy, Apply(policy, s, steps[0]), steps[1..])
  }

  // ----- Whatever fails: every decision rests on its reviews

  predicate Decided(decisions: seq<Decision>, id: Id) {
    exists i :: 0 <= i < |decisions| && decisions[i].id == id
  }

  predicate DecidedOn(decisions: seq<Decision>, id: Id, action: Action) {
    exists i :: 0 <= i < |decisions| && decisions[i].id == id && decisions[i].action == action
  }

  /** The threshold was met by the reviews seen, which are still the first of the case. */
  predicate Justified(t: Tables, d: Decision) {
    d.id in t.cases && Met(d.users, d.seen) && CameOutFor(d.seen, d.action) && d.seen <= ReviewsOf(t, d.id)
  }

  predicate AllJustified(t: Tables, decisions: seq<Decision>) {
    forall i :: 0 <= i < |decisions| ==> Justified(t, decisions[i])
  }

  /** An action is what its case was decided on, and on the case's target. */
  predicate ActFits(t: Tables, decisions: seq<Decision>, act: Act) {
    act.id in t.cases && act == ActFor(act.id, t.cases[act.id], act.action) && DecidedOn(decisions, act.id, act.action)
  }

  predicate ActsFit(t: Tables, decisions: seq<Decision>) {
    forall a :: a in t.actions ==> ActFits(t, decisions, t.actions[a])
  }

  /** A case that suspended a channel was on that channel, and decided on an action that does. */
  predicate CauseFits(policy: Policy, t: Tables, decisions: seq<Decision>, channel: Id, id: Id) {
    && id in t.cases && t.cases[id].kind.Channel? && policy.channels(t.cases[id].target) == Some(channel)
    && (DecidedOn(decisions, id, Suspend) || DecidedOn(decisions, id, Quarantine))
  }

  predicate CausesFit(policy: Policy, t: Tables, decisions: seq<Decision>) {
    forall c :: c in t.suspended && t.suspended[c].ByCase? ==> CauseFits(policy, t, decisions, c, t.suspended[c].id)
  }

  predicate TurnFits(s: State) {
    match s.turn
    case Free => true
    case Checked(id, _, _) => id in s.tables.cases
    case Recorded(id, _) => id in s.tables.cases
    case Acting(id, action) => id in s.tables.cases && DecidedOn(s.decisions, id, action)
    case Suspending(id, action) => id in s.tables.cases && DecidedOn(s.decisions, id, action)
  }

  predicate Base(policy: Policy, s: State) {
    && s.tables.reviews.Keys <= s.tables.cases.Keys && TurnFits(s) && AllJustified(s.tables, s.decisions)
    && ActsFit(s.tables, s.decisions) && CausesFit(policy, s.tables, s.decisions)
  }

  /** Cases stay, with their kind and target. */
  predicate CasesStay(t: Tables, u: Tables) {
    forall id :: id in t.cases ==> CaseStays(t, u, id)
  }

  predicate CaseStays(t: Tables, u: Tables, id: Id)
    requires id in t.cases
  {
    id in u.cases && u.cases[id] == t.cases[id].(status := u.cases[id].status)
  }

  lemma StepKeepsCase(policy: Policy, s: State, step: Step, id: Id)
    requires Enabled(policy, s, step) && id in s.tables.cases
    ensures CaseStays(s.tables, Apply(policy, s, step).tables, id)
  {
  }

  lemma StepKeepsCases(policy: Policy, s: State, step: Step)
    requires Enabled(policy, s, step)
    ensures CasesStay(s.tables, Apply(policy, s, step).tables) && s.decisions <= Apply(policy, s, step).decisions
  {
    forall id | id in s.tables.cases ensures CaseStays(s.tables, Apply(policy, s, step).tables, id) {
      StepKeepsCase(policy, s, step, id);
    }
  }

  lemma DecidedOnStays(before: seq<Decision>, after: seq<Decision>, id: Id, action: Action)
    requires DecidedOn(before, id, action) && before <= after
    ensures DecidedOn(after, id, action)
  {
    var i :| 0 <= i < |before| && before[i].id == id && before[i].action == action;
    assert after[i] == before[i];
  }

  lemma JustifiedStays(t: Tables, u: Tables, d: Decision)
    requires Justified(t, d) && t.cases.Keys <= u.cases.Keys && ReviewsOf(t, d.id) <= ReviewsOf(u, d.id)
    ensures Justified(u, d)
  {
  }

  lemma StepKeepsReviews(policy: Policy, s: State, step: Step, id: Id)
    requires Enabled(policy, s, step)
    ensures ReviewsOf(s.tables, id) <= ReviewsOf(Apply(policy, s, step).tables, id)
  {
  }

  lemma StepKeepsJustified(policy: Policy, s: State, step: Step)
    requires Base(policy, s) && Enabled(policy, s, step)
    ensures AllJustified(Apply(policy, s, step).tables, Apply(policy, s, step).decisions)
  {
    var t := Apply(policy, s, step);
    StepKeepsCases(policy, s, step);
    forall i | 0 <= i < |t.decisions| ensures Justified(t.tables, t.decisions[i]) {
      if i < |s.decisions| {
        assert t.decisions[i] == s.decisions[i];
        StepKeepsReviews(policy, s, step, s.decisions[i].id);
        JustifiedStays(s.tables, t.tables, s.decisions[i]);
      }
    }
  }

  lemma DecideKeepsTurn(policy: Policy, s: State, step: Step)
    requires TurnFits(s) && step.Decide? && Enabled(policy, s, step)
    ensures TurnFits(Apply(policy, s, step))
  {
    var t := Apply(policy, s, step);
    if t.turn.Acting? {
      assert t.decisions[|s.decisions|].id == s.turn.id;
    }
  }

  lemma StepKeepsTurn(policy: Policy, s: State, step: Step)
    requires TurnFits(s) && Enabled(policy, s, step)
    ensures TurnFits(Apply(policy, s, step))
  {
    if step.Decide? {
      DecideKeepsTurn(policy, s, step);
    } else {
      StepKeepsCases(policy, s, step);
    }
  }

  lemma ActStaysFit(t: Tables, before: seq<Decision>, u: Tables, after: seq<Decision>, act: Act)
    requires ActFits(t, before, act) && CasesStay(t, u) && before <= after
    ensures ActFits(u, after, act)
  {
    DecidedOnStays(before, after, act.id, act.action);
  }

  lemma StepKeepsActs(policy: Policy, s: State, step: Step)
    requires TurnFits(s) && ActsFit(s.tables, s.decisions) && Enabled(policy, s, step)
    ensures ActsFit(Apply(policy, s, step).tables, Apply(policy, s, step).decisions)
  {
    var t := Apply(policy, s, step);
    StepKeepsCases(policy, s, step);
    forall a | a in t.tables.actions ensures ActFits(t.tables, t.decisions, t.tables.actions[a]) {
      if a in s.tables.actions {
        ActStaysFit(s.tables, s.decisions, t.tables, t.decisions, s.tables.actions[a]);
      }
    }
  }

  lemma CauseStaysFit(policy: Policy, t: Tables, before: seq<Decision>, u: Tables, after: seq<Decision>, c: Id, id: Id)
    requires CauseFits(policy, t, before, c, id) && CasesStay(t, u) && before <= after
    ensures CauseFits(policy, u, after, c, id)
  {
    if DecidedOn(before, id, Suspend) {
      DecidedOnStays(before, after, id, Suspend);
    } else {
      DecidedOnStays(before, after, id, Quarantine);
    }
  }

  /** A suspension that was not there is the operator's, or that of the case being acted on. */
  lemma StepSuspends(policy: Policy, s: State, step: Step, c: Id)
    requires Enabled(policy, s, step) && c in Apply(policy, s, step).tables.suspended
    requires Apply(policy, s, step).tables.suspended[c].ByCase?
    ensures var cause := Apply(policy, s, step).tables.suspended[c];
            || (c in s.tables.suspended && s.tables.suspended[c] == cause)
            || (&& step.SuspendChannel? && cause == ByCase(s.turn.id) && s.turn.id in s.tables.cases
                && Struck(policy.channels, s.tables.cases[s.turn.id], s.turn.action) == Some(c))
  {
  }

  lemma StepKeepsCauses(policy: Policy, s: State, step: Step)
    requires TurnFits(s) && CausesFit(policy, s.tables, s.decisions) && Enabled(policy, s, step)
    ensures CausesFit(policy, Apply(policy, s, step).tables, Apply(policy, s, step).decisions)
  {
    var t := Apply(policy, s, step);
    StepKeepsCases(policy, s, step);
    forall c | c in t.tables.suspended && t.tables.suspended[c].ByCase?
      ensures CauseFits(policy, t.tables, t.decisions, c, t.tables.suspended[c].id)
    {
      StepSuspends(policy, s, step, c);
      if c in s.tables.suspended && s.tables.suspended[c] == t.tables.suspended[c] {
        CauseStaysFit(policy, s.tables, s.decisions, t.tables, t.decisions, c, s.tables.suspended[c].id);
      }
    }
  }

  lemma StepKeepsBase(policy: Policy, s: State, step: Step)
    requires Base(policy, s) && Enabled(policy, s, step)
    ensures Base(policy, Apply(policy, s, step))
  {
    StepKeepsJustified(policy, s, step);
    StepKeepsTurn(policy, s, step);
    StepKeepsActs(policy, s, step);
    StepKeepsCauses(policy, s, step);
  }

  lemma {:induction false} RunKeepsBase(policy: Policy, s: State, steps: seq<Step>)
    requires Base(policy, s) && Allowed(policy, s, steps)
    ensures Base(policy, Run(policy, s, steps))
    decreases |steps|
  {
    if steps != [] {
      StepKeepsBase(policy, s, steps[0]);
      RunKeepsBase(policy, Apply(policy, s, steps[0]), steps[1..]);
    }
  }

  /**
   Over every run, whatever fails: each decision rested on reviews that met the threshold and came out for its
   action, each action is what its case was decided on, on that case's target, and each channel suspended by a
   case is the one that case is about, decided to be suspended or quarantined.
   */
  lemma EveryActionIsJustified(policy: Policy, steps: seq<Step>)
    requires Allowed(policy, Init(), steps)
    ensures var s := Run(policy, Init(), steps);
            && AllJustified(s.tables, s.decisions) && ActsFit(s.tables, s.decisions)
            && CausesFit(policy, s.tables, s.decisions)
  {
    RunKeepsBase(policy, Init(), steps);
  }

  // ----- Reads that work: nobody reviews a case twice

  predicate DistinctReviewers(reviews: seq<Review>) {
    forall i, j :: 0 <= i < j < |reviews| ==> reviews[i].reviewer != reviews[j].reviewer
  }

  predicate AllDistinct(t: Tables) { forall id :: id in t.reviews ==> DistinctReviewers(t.reviews[id]) }

  predicate NoRepeat(s: State) {
    AllDistinct(s.tables) && (s.turn.Checked? ==> !Reviewed(s.tables, s.turn.id, s.turn.review.reviewer))
  }

  lemma RecordKeepsNoRepeat(policy: Policy, s: State)
    requires NoRepeat(s) && Enabled(policy, s, Record)
    ensures NoRepeat(Apply(policy, s, Record))
  {
    var reviews := ReviewsOf(s.tables, s.turn.id);
    assert forall i :: 0 <= i < |reviews| ==> reviews[i].reviewer != s.turn.review.reviewer;
  }

  lemma StepKeepsNoRepeat(policy: Policy, s: State, step: Step)
    requires NoRepeat(s) && Enabled(policy, s, step) && !policy.readsFail
    ensures NoRepeat(Apply(policy, s, step))
  {
    if step.Record? {
      RecordKeepsNoRepeat(policy, s);
    } else {
      assert forall id :: ReviewsOf(Apply(policy, s, step).tables, id) == ReviewsOf(s.tables, id);
    }
  }

  lemma {:induction false} RunKeepsNoRepeat(policy: Policy, s: State, steps: seq<Step>)
    requires NoRepeat(s) && Allowed(policy, s, steps) && !policy.readsFail
    ensures NoRepeat(Run(policy, s, steps))
    decreases |steps|
  {
    if steps != [] {
      StepKeepsNoRepeat(policy, s, steps[0]);
      RunKeepsNoRepeat(policy, Apply(policy, s, steps[0]), steps[1..]);
    }
  }

  // ----- Updates that work: one action per case

  /** A case read as new has no decision, and one with a decision is past new. */
  predicate Fresher(s: State) {
    && (s.turn.Checked? || s.turn.Recorded? ==> (s.turn.snapshot == New ==> !Decided(s.decisions, s.turn.id)))
    && (s.turn.Acting? || s.turn.Suspending? ==> NoActOf(s.tables, s.turn.id))
    && (forall i :: 0 <= i < |s.decisions| ==> PastNew(s.tables, s.decisions[i].id))
  }

  predicate NoActOf(t: Tables, id: Id) { forall a :: a in t.actions ==> t.actions[a].id != id }

  predicate PastNew(t: Tables, id: Id) { id in t.cases && t.cases[id].status != New }

  predicate DecidedOnce(decisions: seq<Decision>) {
    forall i, j :: 0 <= i < j < |decisions| ==> decisions[i].id != decisions[j].id
  }

  predicate OnePerCase(actions: map<Id, Act>) {
    forall a, b :: a in actions && b in actions && a != b ==> actions[a].id != actions[b].id
  }

  predicate Once(s: State) { Fresher(s) && DecidedOnce(s.decisions) && OnePerCase(s.tables.actions) }

  /** Once past new, a case stays so. */
  lemma PastNewStays(policy: Policy, s: State, step: Step, id: Id)
    requires PastNew(s.tables, id) && Enabled(policy, s, step)
    ensures PastNew(Apply(policy, s, step).tables, id)
  {
  }

  lemma DecisionsArePastNew(policy: Policy, s: State, step: Step)
    requires Fresher(s) && Enabled(policy, s, step)
    ensures forall i :: 0 <= i < |s.decisions| ==> PastNew(Apply(policy, s, step).tables, s.decisions[i].id)
  {
    forall i | 0 <= i < |s.decisions| ensures PastNew(Apply(policy, s, step).tables, s.decisions[i].id) {
      PastNewStays(policy, s, step, s.decisions[i].id);
    }
  }

  lemma UndecidedHasNoAct(t: Tables, decisions: seq<Decision>, id: Id)
    requires ActsFit(t, decisions) && !Decided(decisions, id)
    ensures NoActOf(t, id)
  {
    forall a | a in t.actions ensures t.actions[a].id != id {
      assert ActFits(t, decisions, t.actions[a]);
    }
  }

  lemma DecideKeepsOnce(policy: Policy, s: State, step: Step)
    requires Base(policy, s) && Once(s) && step.Decide? && Enabled(policy, s, step) && !policy.updatesFail
    ensures Once(Apply(policy, s, step))
  {
    DecisionsArePastNew(policy, s, step);
    if Apply(policy, s, step).turn.Acting? {
      UndecidedHasNoAct(s.tables, s.decisions, s.turn.id);
    }
  }

  /** Steps that do not decide, and leave the review in progress alone, take it further or end it. */
  lemma OtherKeepsOnce(policy: Policy, s: State, step: Step)
    requires Once(s) && Enabled(policy, s, step) && !step.Check? && !step.Record? && !step.Decide?
    ensures Once(Apply(policy, s, step))
  {
    DecisionsArePastNew(policy, s, step);
  }

  lemma CheckKeepsOnce(policy: Policy, s: State, step: Step)
    requires Once(s) && (step.Check? || step.Record?) && Enabled(policy, s, step)
    ensures Once(Apply(policy, s, step))
  {
    if step.Check? && s.tables.cases[step.id].status == New {
      assert forall i :: 0 <= i < |s.decisions| ==> PastNew(s.tables, s.decisions[i].id);
    }
  }

  lemma StepKeepsOnce(policy: Policy, s: State, step: Step)
    requires Base(policy, s) && Once(s) && Enabled(policy, s, step) && !policy.updatesFail
    ensures Once(Apply(policy, s, step))
  {
    match step
    case Decide(_, _, _) => DecideKeepsOnce(policy, s, step);
    case Check(_, _, _) => CheckKeepsOnce(policy, s, step);
    case Record => CheckKeepsOnce(policy, s, step);
    case _ => OtherKeepsOnce(policy, s, step);
  }

  lemma {:induction false} RunKeepsOnce(policy: Policy, s: State, steps: seq<Step>)
    requires Base(policy, s) && Once(s) && Allowed(policy, s, steps) && !policy.updatesFail
    ensures Once(Run(policy, s, steps))
    decreases |steps|
  {
    if steps != [] {
      StepKeepsBase(policy, s, steps[0]);
      StepKeepsOnce(policy, s, steps[0]);
      RunKeepsOnce(policy, Apply(policy, s, steps[0]), steps[1..]);
    }
  }

  /** Once a case is past new, no interleaving makes it new again. */
  lemma {:induction false} NeverNewAgain(policy: Policy, s: State, steps: seq<Step>, id: Id)
    requires Allowed(policy, s, steps) && PastNew(s.tables, id)
    ensures PastNew(Run(policy, s, steps).tables, id)
    decreases |steps|
  {
    if steps != [] {
      PastNewStays(policy, s, steps[0], id);
      NeverNewAgain(policy, Apply(policy, s, steps[0]), steps[1..], id);
    }
  }

  /** With distinct reviewers, the voters are as many as the voting reviews. */
  function VotingReviews(reviews: seq<Review>): nat {
    if reviews == [] then 0
    else VotingReviews(reviews[..|reviews| - 1]) + (if Votes(reviews[|reviews| - 1]) then 1 else 0)
  }

  lemma {:induction false} DistinctVotersAreCounted(reviews: seq<Review>)
    requires DistinctReviewers(reviews)
    ensures |Voters(reviews)| == VotingReviews(reviews)
  {
    if reviews != [] {
      var front, last := reviews[..|reviews| - 1], reviews[|reviews| - 1];
      DistinctVotersAreCounted(front);
      assert front + [last] == reviews;
      TallyOneMore(front, last);
      assert last.reviewer !in Voters(front);
    }
  }

  // ----- One review as steps

  /** The case, checked and recorded. */
  lemma CheckAndRecord(policy: Policy, s: State, id: Id, review: Review, read: bool)
    requires Enabled(policy, s, Check(id, review, read))
    ensures Enabled(policy, Apply(policy, s, Check(id, review, read)), Record)
    ensures Apply(policy, Apply(policy, s, Check(id, review, read)), Record)
            == s.(tables := WithReview(s.tables, id, review), turn := Recorded(id, s.tables.cases[id].status))
  {
  }

  /** The reviews, with the new one last. */
  lemma RecordedReviews(t: Tables, id: Id, review: Review)
    ensures ReviewsOf(WithReview(t, id, review), id) == ReviewsOf(t, id) + [review]
  {
  }

  predicate Decides(s: State, id: Id, review: Review, users: int)
    requires id in s.tables.cases
  {
    Met(users, ReviewsOf(s.tables, id) + [review]) && s.tables.cases[id].status == New
  }

  lemma DecideOnce(policy: Policy, s: State, id: Id, review: Review, users: int, action: Action, updated: bool)
    requires id in s.tables.cases && (updated || policy.updatesFail)
    requires Met(users, ReviewsOf(s.tables, id) + [review]) ==> CameOutFor(ReviewsOf(s.tables, id) + [review], action)
    ensures var recorded := WithReview(s.tables, id, review);
            var s2 := s.(tables := recorded, turn := Recorded(id, s.tables.cases[id].status));
            && Enabled(policy, s2, Decide(users, action, updated))
            && Apply(policy, s2, Decide(users, action, updated)) ==
               if Decides(s, id, review, users)
               then s.(tables := Updated(recorded, id, Actioned, updated), turn := Acting(id, action),
                       decisions := s.decisions + [Decision(id, action, users, ReviewsOf(s.tables, id) + [review])])
               else s.(tables := recorded, turn := Free)
  {
    RecordedReviews(s.tables, id, review);
  }

  /** The statements of one review: stopped after recording if the reviews cannot be read again, and after
      suspending if the action cannot be written. */
  function ReviewSteps(id: Id, review: Review, users: int, action: Action, actionId: Id, store: Store, decided: bool)
    : seq<Step>
  {
    var rest := if store.reread then [Decide(users, action, store.updated)] + ActingSteps(actionId, store, decided)
                else [Stop];
    [Check(id, review, store.read)] + ([Record] + rest)
  }

  function ActingSteps(actionId: Id, store: Store, decided: bool): seq<Step> {
    if !decided then []
    else [SuspendChannel(store.suspended)] + (if store.created then [CreateAction(actionId)] else [Stop])
  }

  predicate Fits(policy: Policy, store: Store) {
    (store.read || policy.readsFail) && (store.updated || policy.updatesFail)
  }

  lemma CreationAddsUp(policy: Policy, s: State, actionId: Id, created: bool)
    requires s.turn.Suspending? && s.turn.id in s.tables.cases && actionId !in s.tables.actions
    ensures var steps := if created then [CreateAction(actionId)] else [Stop];
            && Allowed(policy, s, steps)
            && Run(policy, s, steps).tables
               == if created then WithAct(s.tables, actionId, s.turn.id, s.turn.action) else s.tables
  {
    One(policy, s, if created then CreateAction(actionId) else Stop, []);
  }

  lemma ActionAddsUp(policy: Policy, s: State, actionId: Id, store: Store)
    requires s.turn.Acting? && s.turn.id in s.tables.cases && actionId !in s.tables.actions && Fits(policy, store)
    ensures var steps := ActingSteps(actionId, store, true);
            && Allowed(policy, s, steps)
            && var t := if store.suspended then Suspended(policy, s.tables, s.turn.id, s.turn.action) else s.tables;
               Run(policy, s, steps).tables
               == if store.created then WithAct(t, actionId, s.turn.id, s.turn.action) else t
  {
    var step := SuspendChannel(store.suspended);
    CreationAddsUp(policy, Apply(policy, s, step), actionId, store.created);
    One(policy, s, step, if store.created then [CreateAction(actionId)] else [Stop]);
  }

  lemma ActedIs(policy: Policy, t: Tables, store: Store, id: Id, action: Action, actionId: Id)
    requires id in t.cases
    ensures var u := Updated(t, id, Actioned, store.updated);
            var v := if store.suspended then Suspended(policy, u, id, action) else u;
            Acted(t, policy.channels, store, id, t.cases[id], action, actionId)
            == if store.created then WithAct(v, actionId, id, action) else v
  {
  }

  /** Undisturbed, the statements of one review add up to `Service.ReviewCase`. */
  lemma StepsAddUp(policy: Policy, s: State, id: Id, review: Review, users: int, action: Action, actionId: Id,
                   store: Store)
    requires Fits(policy, store) && Enabled(policy, s, Check(id, review, store.read)) && actionId !in s.tables.actions
    requires Met(users, ReviewsOf(s.tables, id) + [review]) ==> CameOutFor(ReviewsOf(s.tables, id) + [review], action)
    ensures var decided := Decides(s, id, review, users);
      var steps := ReviewSteps(id, review, users, action, actionId, store, decided);
      var recorded := WithReview(s.tables, id, review);
      && Allowed(policy, s, steps)
      && Run(policy, s, steps).tables ==
           if store.reread && decided
           then Acted(recorded, policy.channels, store, id, s.tables.cases[id], action, actionId)
           else recorded
  {
    var s1 := Apply(policy, s, Check(id, review, store.read));
    CheckAndRecord(policy, s, id, review, store.read);
    var s2 := Apply(policy, s1, Record);
    var decided := Decides(s, id, review, users);
    var rest := [Stop];
    if store.reread {
      DecideOnce(policy, s, id, review, users, action, store.updated);
      var s3 := Apply(policy, s2, Decide(users, action, store.updated));
      if decided {
        ActionAddsUp(policy, s3, actionId, store);
        ActedIs(policy, s2.tables, store, id, action, actionId);
      }
      One(policy, s2, Decide(users, action, store.updated), ActingSteps(actionId, store, decided));
      rest := [Decide(users, action, store.updated)] + ActingSteps(actionId, store, decided);
    } else {
      One(policy, s2, Stop, []);
    }
    One(policy, s1, Record, rest);
    One(policy, s, Check(id, review, store.read), [Record] + rest);
  }

  lemma One(policy: Policy, s: State, step: Step, rest: seq<Step>)
    requires Enabled(policy, s, step) && Allowed(policy, Apply(policy, s, step), rest)
    ensures Allowed(policy, s, [step] + rest)
    ensures Run(policy, s, [step] + rest) == Run(policy, Apply(policy, s, step), rest)
  {
    assert ([step] + rest)[1..] == rest;
  }

  // ----- Reachable states

  lemma OneMore(policy: Policy, s: State, steps: seq<Step>, step: Step)
    requires Allowed(policy, s, steps) && Enabled(policy, Run(policy, s, steps), step)
    ensures Allowed(policy, s, steps + [step])
    ensures Run(policy, s, steps + [step]) == Apply(policy, Run(policy, s, steps), step)
    decreases |steps|
  {
    if steps == [] {
      assert [] + [step] == [step];
    } else {
      assert (steps + [step])[1..] == steps[1..] + [step];
      OneMore(policy, Apply(policy, s, steps[0]), steps[1..], step);
    }
  }

  ghost predicate Reachable(policy: Policy, s: State) {
    exists steps :: Allowed(policy, Init(), steps) && Run(policy, Init(), steps) == s
  }

  lemma Go(policy: Policy, s: State, step: Step) returns (t: State)
    requires Reachable(policy, s) && Enabled(policy, s, step)
    ensures Reachable(policy, t) && t == Apply(policy, s, step)
  {
    var steps :| Allowed(policy, Init(), steps) && Run(policy, Init(), steps) == s;
    OneMore(policy, Init(), steps, step);
    t := Apply(policy, s, step);
  }

  lemma Opened(policy: Policy, kind: Kind, target: string) returns (s: State)
    ensures Reachable(policy, s)
    ensures s == Init().(tables := Init().tables.(cases := map[0 := Case(New, kind, target)]))
  {
    assert Allowed(policy, Init(), []) && Run(policy, Init(), []) == Init();
    s := Go(policy, Init(), Open(0, New, kind, target));
  }

  // ----- A read that fails

  /** A reviewer whose reviews cannot be read votes again. */
  lemma UnreadReviewerVotesAgain(policy: Policy, review: Review) returns (s: State)
    requires policy.readsFail
    ensures Reachable(policy, s) && ReviewsOf(s.tables, 0) == [review, review]
  {
    s := Opened(policy, Channel, "");
    s := Go(policy, s, Check(0, review, true));
    s := Go(policy, s, Record);
    assert ReviewsOf(s.tables, 0) == [review];
    s := Go(policy, s, Stop);
    s := Go(policy, s, Check(0, review, false));
    s := Go(policy, s, Record);
  }

  ghost predicate NobodyReviewsTwice(policy: Policy) { forall s :: Reachable(policy, s) ==> AllDistinct(s.tables) }

  /** Over every run the reviewers of a case are pairwise distinct, exactly if no read of the reviews fails. */
  lemma NobodyReviewsTwiceExactly(policy: Policy)
    ensures NobodyReviewsTwice(policy) <==> !policy.readsFail
  {
    if policy.readsFail {
      var s := UnreadReviewerVotesAgain(policy, Review("", Critical, Suspend));
      assert ReviewsOf(s.tables, 0)[0].reviewer == ReviewsOf(s.tables, 0)[1].reviewer;
      assert 0 in s.tables.reviews && !DistinctReviewers(s.tables.reviews[0]);
    } else {
      forall s | Reachable(policy, s) ensures AllDistinct(s.tables) {
        var steps :| Allowed(policy, Init(), steps) && Run(policy, Init(), steps) == s;
        RunKeepsNoRepeat(policy, Init(), steps);
      }
    }
  }

  // ----- An update that fails

  /** One critical vote more is enough on a node of one user. */
  lemma {:induction false} CriticalVoteMeets(reviews: seq<Review>, review: Review)
    requires review.severity.Critical? && Votes(review)
    ensures Met(1, reviews + [review])
  {
    TallyOneMore(reviews, review);
    assert review.reviewer in Voters(reviews + [review]);
    assert {review.reviewer} <= Voters(reviews + [review]);
    assert |Voters(reviews + [review])| >= 1 by {
      assert Voters(reviews + [review]) != {};
    }
  }

  /** A review that acts and loses its update leaves the case new. */
  lemma DecidesAndLeavesNew(policy: Policy, s0: State, review: Review) returns (s: State)
    requires policy.updatesFail && Reachable(policy, s0) && Enabled(policy, s0, Check(0, review, true))
    requires s0.tables.cases[0].status == New && review.severity.Critical? && Votes(review)
    ensures Reachable(policy, s) && s.turn.Acting? && s.turn.id == 0 && s.tables == WithReview(s0.tables, 0, review)
  {
    var reviews := ReviewsOf(s0.tables, 0) + [review];
    CriticalVoteMeets(ReviewsOf(s0.tables, 0), review);
    MetHasWinner(1, reviews);
    var action :| CameOutFor(reviews, action);
    CheckAndRecord(policy, s0, 0, review, true);
    DecideOnce(policy, s0, 0, review, 1, action, false);
    s := Go(policy, s0, Check(0, review, true));
    s := Go(policy, s, Record);
    s := Go(policy, s, Decide(1, action, false));
  }

  lemma ActsAndLeavesNew(policy: Policy, s0: State, review: Review, actionId: Id) returns (s: State)
    requires policy.updatesFail && Reachable(policy, s0) && Enabled(policy, s0, Check(0, review, true))
    requires s0.tables.cases[0].status == New && review.severity.Critical? && Votes(review)
    requires actionId !in s0.tables.actions
    ensures Reachable(policy, s) && s.turn.Free? && s.tables.cases == s0.tables.cases
    ensures s.tables.actions.Keys == s0.tables.actions.Keys + {actionId} && s.tables.actions[actionId].id == 0
    ensures forall a :: a in s0.tables.actions ==> s.tables.actions[a] == s0.tables.actions[a]
    ensures ReviewsOf(s.tables, 0) == ReviewsOf(s0.tables, 0) + [review]
  {
    s := DecidesAndLeavesNew(policy, s0, review);
    RecordedReviews(s0.tables, 0, review);
    s := Go(policy, s, SuspendChannel(false));
    s := Go(policy, s, CreateAction(actionId));
  }

  lemma LostUpdateActsAgain(policy: Policy, first: Review, second: Review) returns (s: State)
    requires policy.updatesFail && first.reviewer != second.reviewer
    requires first.severity.Critical? && Votes(first) && second.severity.Critical? && Votes(second)
    ensures Reachable(policy, s) && !OnePerCase(s.tables.actions)
  {
    s := Opened(policy, Channel, "");
    s := ActsAndLeavesNew(policy, s, first, 0);
    assert ReviewsOf(s.tables, 0) == [first];
    s := ActsAndLeavesNew(policy, s, second, 1);
    assert 0 in s.tables.actions && 1 in s.tables.actions && s.tables.actions[0].id == s.tables.actions[1].id;
  }

  ghost predicate OneActionPerCase(policy: Policy) {
    forall s :: Reachable(policy, s) ==> OnePerCase(s.tables.actions)
  }

  /** Over every run a case has at most one action, exactly if no update of a status fails. */
  lemma OneActionPerCaseExactly(policy: Policy)
    ensures OneActionPerCase(policy) <==> !policy.updatesFail
  {
    if policy.updatesFail {
      var s := LostUpdateActsAgain(policy, Review("a", Critical, Suspend), Review("b", Critical, Suspend));
    } else {
      forall s | Reachable(policy, s) ensures OnePerCase(s.tables.actions) {
        var steps :| Allowed(policy, Init(), steps) && Run(policy, Init(), steps) == s;
        RunKeepsOnce(policy, Init(), steps);
      }
    }
  }

  /** Nor is a case then ever decided twice, even if an action is deleted in between. */
  lemma DecidedAtMostOnce(policy: Policy, steps: seq<Step>)
    requires Allowed(policy, Init(), steps) && !policy.updatesFail
    ensures DecidedOnce(Run(policy, Init(), steps).decisions)
  {
    RunKeepsOnce(policy, Init(), steps);
  }
}
