/**
 The arithmetic of the abuse governance: seats, thresholds, the tally of a case's
 reviews and the choice of the action. Seat shares are exact rational ceilings.
 */
module Governance {
  import opened Wrappers

  // ----- Seats and thresholds

  function Ceiling(numerator: int, denominator: int): int
    requires denominator > 0
  {
    (numerator + denominator - 1) / denominator
  }

  function Clamp(low: int, value: int, high: int): int {
    var raised := if value < low then low else value;
    if raised > high then high else raised
  }

  /** Two reviewer seats for every five users. */
  function ReviewerSeats(users: int): int {
    if users <= 0 then 0 else Clamp(1, Ceiling(2 * users, 5), users)
  }

  /** Seven senior seats for every twenty reviewer seats. */
  function SeniorSeats(seats: int): int {
    if seats <= 0 then 0 else Clamp(1, Ceiling(7 * seats, 20), seats)
  }

  function MinReviewers(users: int): int {
    var seats := ReviewerSeats(users);
    if seats <= 0 then 1 else Clamp(if seats >= 2 then 2 else 0, Ceiling(seats, 2), seats)
  }

  function MinPoints(users: int): int {
    var seats := ReviewerSeats(users);
    if seats <= 0 then 4 else if seats * 2 < 4 then 4 else seats * 2
  }

  /** The shares are what they claim to be. */
  lemma SeatsAreShares(users: int)
    requires users > 0
    ensures 5 * (ReviewerSeats(users) - 1) < 2 * users <= 5 * ReviewerSeats(users) && 1 <= ReviewerSeats(users) <= users
    ensures 20 * (SeniorSeats(ReviewerSeats(users)) - 1) < 7 * ReviewerSeats(users)
            <= 20 * SeniorSeats(ReviewerSeats(users))
    ensures 1 <= SeniorSeats(ReviewerSeats(users)) <= ReviewerSeats(users)
  {
  }

  /**
   Every threshold can be met: the reviewers it asks for are at most the seats when
   there are any, and that many critical votes always reach the points.
   */
  lemma ThresholdIsReachable(users: int)
    ensures ReviewerSeats(users) > 0 ==> 1 <= MinReviewers(users) <= ReviewerSeats(users)
    ensures SeverityWeight(Critical) * MinReviewers(users) >= MinPoints(users)
    ensures ReviewerSeats(users) >= 2 ==> MinReviewers(users) >= 2
  {
    var seats := ReviewerSeats(users);
    if seats > 0 {
      assert 2 * Ceiling(seats, 2) >= seats;
    }
    assert 4 * MinReviewers(users) >= MinPoints(users);
  }

  /** A node that grows never gets easier to act on. */
  lemma ThresholdGrows(fewer: int, more: int)
    requires 1 <= fewer <= more
    ensures ReviewerSeats(fewer) <= ReviewerSeats(more)
    ensures MinReviewers(fewer) <= MinReviewers(more) && MinPoints(fewer) <= MinPoints(more)
  {
  }

  // ----- Reviews and their tally

  datatype Severity = Critical | High | Medium | Lower

  function SeverityWeight(severity: Severity): (w: int)
    ensures 1 <= w <= 4
  {
    match severity
    case Critical => 4
    case High => 3
    case Medium => 2
    case Lower => 1
  }

  /** A recommended action; everything that is not one of the four is unlisted. */
  datatype Action = Suspend | Timeout | Quarantine | Warn | Unlisted(name: string)

  datatype Review = Review(reviewer: string, severity: Severity, recommendation: Action)

  predicate Votes(review: Review) { !review.recommendation.Unlisted? }

  function CountFor(reviews: seq<Review>, action: Action): nat {
    if reviews == [] then 0
    else CountFor(reviews[..|reviews| - 1], action) + (if reviews[|reviews| - 1].recommendation == action then 1 else 0)
  }

  function Voters(reviews: seq<Review>): set<string> {
    set i | 0 <= i < |reviews| && Votes(reviews[i]) :: reviews[i].reviewer
  }

  function Points(reviews: seq<Review>): nat {
    if reviews == [] then 0
    else var last := reviews[|reviews| - 1];
         Points(reviews[..|reviews| - 1]) + (if Votes(last) then SeverityWeight(last.severity) else 0)
  }

  type Ballot = map<Action, int>

  /** The four actions with the number of their votes, those without any left out. */
  predicate BallotOf(ballot: Ballot, reviews: seq<Review>) {
    && (forall a :: a in ballot ==> !a.Unlisted? && ballot[a] == CountFor(reviews, a) && ballot[a] > 0)
    && (forall i :: 0 <= i < |reviews| && Votes(reviews[i]) ==> reviews[i].recommendation in ballot)
  }

  function BallotFor(reviews: seq<Review>): Ballot {
    map a | a in {Suspend, Timeout, Quarantine, Warn} && CountFor(reviews, a) > 0 :: CountFor(reviews, a)
  }

  lemma BallotIsDetermined(ballot: Ballot, reviews: seq<Review>)
    requires BallotOf(ballot, reviews)
    ensures ballot == BallotFor(reviews)
  {
    forall a | a in BallotFor(reviews) ensures a in ballot {
      UncountedIsUnvoted(reviews, a);
    }
  }

  /** The loop of `ReviewCase` over all reviews of the case. */
  method Tally(reviews: seq<Review>) returns (ballot: Ballot, voters: set<string>, points: nat)
    ensures ballot == BallotFor(reviews) && voters == Voters(reviews) && points == Points(reviews)
  {
    ballot, voters, points := map[], {}, 0;
    for i := 0 to |reviews|
      invariant BallotOf(ballot, reviews[..i]) && voters == Voters(reviews[..i]) && points == Points(reviews[..i])
    {
      var review := reviews[i];
      TallyOneMore(reviews[..i], review);
      BallotOneMore(ballot, reviews[..i], review);
      assert reviews[..i + 1] == reviews[..i] + [review];
      if !review.recommendation.Unlisted? {
        var action := review.recommendation;
        ballot := ballot[action := (if action in ballot then ballot[action] else 0) + 1];
        voters := voters + {review.reviewer};
        points := points + SeverityWeight(review.severity);
      }
    }
    assert reviews[..|reviews|] == reviews;
    BallotIsDetermined(ballot, reviews);
  }

  lemma TallyOneMore(reviews: seq<Review>, review: Review)
    ensures forall a ::
              CountFor(reviews + [review], a) == CountFor(reviews, a) + (if review.recommendation == a then 1 else 0)
    ensures Voters(reviews + [review]) == Voters(reviews) + (if Votes(review) then {review.reviewer} else {})
    ensures Points(reviews + [review])
            == Points(reviews) + (if Votes(review) then SeverityWeight(review.severity) else 0)
  {
    var more := reviews + [review];
    assert more[..|more| - 1] == reviews;
    forall x | x in Voters(reviews) ensures x in Voters(more) {
      var i :| 0 <= i < |reviews| && Votes(reviews[i]) && reviews[i].reviewer == x;
      assert more[i] == reviews[i];
    }
    if Votes(review) {
      assert more[|reviews|] == review;
    }
  }

  lemma {:induction false} UncountedIsUnvoted(reviews: seq<Review>, a: Action)
    ensures CountFor(reviews, a) == 0 <==> forall i :: 0 <= i < |reviews| ==> reviews[i].recommendation != a
  {
    if reviews != [] {
      UncountedIsUnvoted(reviews[..|reviews| - 1], a);
    }
  }

  lemma BallotOneMore(ballot: Ballot, reviews: seq<Review>, review: Review)
    requires BallotOf(ballot, reviews)
    ensures BallotOf(if !Votes(review) then ballot
                     else ballot[review.recommendation := (if review.recommendation in ballot
                                                           then ballot[review.recommendation] else 0) + 1],
                     reviews + [review])
  {
    TallyOneMore(reviews, review);
    UncountedIsUnvoted(reviews, review.recommendation);
  }

  // ----- The winning action

  function Priority(action: Action): int {
    match action
    case Suspend => 4
    case Timeout => 3
    case Quarantine => 2
    case Warn => 1
    case Unlisted(_) => 0
  }

  /** More votes, or as many and a higher priority. */
  predicate Beats(count: int, priority: int, otherCount: int, otherPriority: int) {
    count > otherCount || (count == otherCount && priority > otherPriority)
  }

  predicate Over(ballot: Ballot, a: Action, b: Action)
    requires a in ballot && b in ballot
  {
    Beats(ballot[a], Priority(a), ballot[b], Priority(b))
  }

  /** An action no other is over, and which is over nothing at all. */
  predicate Top(ballot: Ballot, a: Action) {
    a in ballot && Beats(ballot[a], Priority(a), 0, 0) && forall b :: b in ballot ==> !Over(ballot, b, a)
  }

  predicate Outcome(ballot: Ballot, winner: Option<Action>) {
    match winner
    case Some(a) => Top(ballot, a)
    case None => forall b :: b in ballot ==> !Beats(ballot[b], Priority(b), 0, 0)
  }

  /** One way to walk through the map. */
  predicate Enumerates(order: seq<Action>, ballot: Ballot) {
    && (forall i :: 0 <= i < |order| ==> order[i] in ballot)
    && (forall a :: a in ballot ==> a in order)
    && (forall i, j :: 0 <= i < j < |order| ==> order[i] != order[j])
  }

  /** `consensusActionType`, walking through the votes in a given order. */
  function Choose(ballot: Ballot, order: seq<Action>): Option<Action>
    requires forall i :: 0 <= i < |order| ==> order[i] in ballot
  {
    if order == [] then None
    else
      var best := Choose(ballot, order[..|order| - 1]);
      var a := order[|order| - 1];
      if Beats(ballot[a], Priority(a), BestCount(ballot, best), BestPriority(best)) then Some(a) else best
  }

  function BestCount(ballot: Ballot, best: Option<Action>): int {
    if best.Some? && best.value in ballot then ballot[best.value] else 0
  }

  function BestPriority(best: Option<Action>): int {
    if best.Some? then Priority(best.value) else 0
  }

  /** The loop itself, over a map whose iteration order the runtime picks. */
  method ConsensusActionType(ballot: Ballot) returns (winner: Option<Action>)
    ensures Outcome(ballot, winner)
  {
    winner := None;
    var bestCount, bestPriority := 0, 0;
    var pending := ballot.Keys;
    while pending != {}
      invariant pending <= ballot.Keys
      invariant bestCount == BestCount(ballot, winner) && bestPriority == BestPriority(winner)
      invariant winner.Some? ==> winner.value in ballot && Beats(bestCount, bestPriority, 0, 0)
      invariant forall b :: b in ballot && b !in pending ==> !Beats(ballot[b], Priority(b), bestCount, bestPriority)
      decreases |pending|
    {
      var action :| action in pending;
      pending := pending - {action};
      var count := ballot[action];
      if count > bestCount || (count == bestCount && Priority(action) > bestPriority) {
        winner, bestCount, bestPriority := Some(action), count, Priority(action);
      }
    }
  }

  lemma {:induction false} ChooseIsBestSoFar(ballot: Ballot, order: seq<Action>)
    requires forall i :: 0 <= i < |order| ==> order[i] in ballot
    ensures var best := Choose(ballot, order);
      && (best.Some? ==> best.value in order && Beats(BestCount(ballot, best), BestPriority(best), 0, 0))
      && (forall i :: 0 <= i < |order| ==>
            !Beats(ballot[order[i]], Priority(order[i]), BestCount(ballot, best), BestPriority(best)))
  {
    if order != [] {
      ChooseIsBestSoFar(ballot, order[..|order| - 1]);
    }
  }

  /** Whatever the order, the loop ends with an outcome... */
  lemma ChooseIsOutcome(ballot: Ballot, order: seq<Action>)
    requires Enumerates(order, ballot)
    ensures Outcome(ballot, Choose(ballot, order))
  {
    ChooseIsBestSoFar(ballot, order);
    forall b | b in ballot
      ensures !Beats(ballot[b], Priority(b), BestCount(ballot, Choose(ballot, order)),
                     BestPriority(Choose(ballot, order)))
    {
      assert b in order;
    }
  }

  /** ... and once it holds a top action, nothing later replaces it. */
  lemma {:induction false} TopIsKept(ballot: Ballot, order: seq<Action>, rest: seq<Action>, a: Action)
    requires forall i :: 0 <= i < |order| ==> order[i] in ballot
    requires forall i :: 0 <= i < |rest| ==> rest[i] in ballot
    requires Top(ballot, a) && Choose(ballot, order) == Some(a)
    ensures Choose(ballot, order + rest) == Some(a)
  {
    if rest == [] {
      assert order + rest == order;
    } else {
      var front := rest[..|rest| - 1];
      TopIsKept(ballot, order, front, a);
      assert (order + rest)[..|order + rest| - 1] == order + front;
    }
  }

  /** Two actions share the top: neither is listed, since the four priorities differ. */
  predicate Tied(ballot: Ballot) {
    exists a, b :: a in ballot && b in ballot && a != b && Top(ballot, a) && Top(ballot, b)
  }

  ghost predicate OrderIndependent(ballot: Ballot) {
    forall p, q :: Enumerates(p, ballot) && Enumerates(q, ballot) ==> Choose(ballot, p) == Choose(ballot, q)
  }

  lemma OutcomeIsUnique(ballot: Ballot, v: Option<Action>, w: Option<Action>)
    requires Outcome(ballot, v) && Outcome(ballot, w) && !Tied(ballot)
    ensures v == w
  {
  }

  lemma {:induction false} SomeOrder(keys: set<Action>) returns (order: seq<Action>)
    ensures forall a :: a in keys <==> a in order
    ensures forall i, j :: 0 <= i < j < |order| ==> order[i] != order[j]
    decreases |keys|
  {
    if keys == {} {
      order := [];
    } else {
      var a :| a in keys;
      var rest := SomeOrder(keys - {a});
      order := [a] + rest;
      forall i, j | 0 <= i < j < |order| ensures order[i] != order[j] {
        assert order[j] in rest;
        if i > 0 { assert order[i] == rest[i - 1] && order[j] == rest[j - 1]; }
      }
    }
  }

  /** A walk that starts at a top action ends there. */
  lemma TopCanWin(ballot: Ballot, a: Action) returns (order: seq<Action>)
    requires Top(ballot, a)
    ensures Enumerates(order, ballot) && Choose(ballot, order) == Some(a)
  {
    var rest := SomeOrder(ballot.Keys - {a});
    order := [a] + rest;
    forall i | 0 <= i < |rest| ensures rest[i] in ballot {
      assert rest[i] in rest;
    }
    assert [a][..0] == [];
    assert Choose(ballot, []) == None;
    assert Choose(ballot, [a]) == Some(a);
    TopIsKept(ballot, [a], rest, a);
    forall i, j | 0 <= i < j < |order| ensures order[i] != order[j] {
      assert order[j] in rest;
      if i > 0 { assert order[i] == rest[i - 1] && order[j] == rest[j - 1]; }
    }
  }

  /** The winner does not depend on the iteration order exactly when no two actions tie at the top. */
  lemma OrderIndependentExactly(ballot: Ballot)
    ensures OrderIndependent(ballot) <==> !Tied(ballot)
  {
    if !Tied(ballot) {
      forall p, q | Enumerates(p, ballot) && Enumerates(q, ballot) ensures Choose(ballot, p) == Choose(ballot, q) {
        ChooseIsOutcome(ballot, p);
        ChooseIsOutcome(ballot, q);
        OutcomeIsUnique(ballot, Choose(ballot, p), Choose(ballot, q));
      }
    } else {
      var a, b :| a in ballot && b in ballot && a != b && Top(ballot, a) && Top(ballot, b);
      var p := TopCanWin(ballot, a);
      var q := TopCanWin(ballot, b);
    }
  }

  lemma PrioritiesDiffer(a: Action, b: Action)
    requires Priority(a) == Priority(b) && !(a.Unlisted? && b.Unlisted?)
    ensures a == b
  {
  }

  /** The ballots `ReviewCase` builds never tie. */
  lemma ReviewBallotsAreDecided(ballot: Ballot)
    requires forall a :: a in ballot ==> !a.Unlisted?
    ensures OrderIndependent(ballot)
  {
    if Tied(ballot) {
      var a, b :| a in ballot && b in ballot && a != b && Top(ballot, a) && Top(ballot, b);
      assert !Over(ballot, a, b) && !Over(ballot, b, a);
      PrioritiesDiffer(a, b);
    }
    OrderIndependentExactly(ballot);
  }

  // ----- When a case is decided

  predicate Met(users: int, reviews: seq<Review>) {
    |Voters(reviews)| >= MinReviewers(users) && Points(reviews) >= MinPoints(users)
  }

  /** The reviews came out for this action. */
  predicate CameOutFor(reviews: seq<Review>, action: Action) {
    Top(BallotFor(reviews), action)
  }

  lemma TopExists(ballot: Ballot, a: Action)
    requires a in ballot && ballot[a] > 0
    ensures exists b :: Top(ballot, b)
  {
    var order := SomeOrder(ballot.Keys);
    forall i | 0 <= i < |order| ensures order[i] in ballot {
      assert order[i] in order;
    }
    ChooseIsOutcome(ballot, order);
    assert Beats(ballot[a], Priority(a), 0, 0);
  }

  /** A threshold met means somebody voted, so the fallback to quarantine is never taken. */
  lemma MetHasWinner(users: int, reviews: seq<Review>)
    requires Met(users, reviews)
    ensures exists action :: CameOutFor(reviews, action)
  {
    ThresholdIsReachable(users);
    assert |Voters(reviews)| >= 1;
    var voter :| voter in Voters(reviews);
    var i :| 0 <= i < |reviews| && Votes(reviews[i]) && reviews[i].reviewer == voter;
    UncountedIsUnvoted(reviews, reviews[i].recommendation);
    TopExists(BallotFor(reviews), reviews[i].recommendation);
    var action :| Top(BallotFor(reviews), action);
    assert CameOutFor(reviews, action);
  }

  lemma WinnerIsUnique(reviews: seq<Review>, a: Action, b: Action)
    requires CameOutFor(reviews, a) && CameOutFor(reviews, b)
    ensures a == b && !a.Unlisted?
  {
    var ballot := BallotFor(reviews);
    assert !Over(ballot, a, b) && !Over(ballot, b, a);
    PrioritiesDiffer(a, b);
  }

  // ----- The same in plain numbers

  /** The four actions, the severest first. */
  const BY_SEVERITY: seq<Action> := [Suspend, Timeout, Quarantine, Warn]

  /** The most votes of all, more than any severer action has, and at least one. */
  predicate FirstOfTheMost(reviews: seq<Review>, k: nat)
    requires k < 4
  {
    && CountFor(reviews, BY_SEVERITY[k]) > 0
    && (forall j :: 0 <= j < 4 ==> CountFor(reviews, BY_SEVERITY[j]) <= CountFor(reviews, BY_SEVERITY[k]))
    && (forall j :: 0 <= j < k ==> CountFor(reviews, BY_SEVERITY[j]) < CountFor(reviews, BY_SEVERITY[k]))
  }

  lemma TopOfListed(reviews: seq<Review>, a: Action)
    requires a in BY_SEVERITY
    ensures CameOutFor(reviews, a) <==>
            && CountFor(reviews, a) > 0
            && forall b :: b in BY_SEVERITY ==>
                 !Beats(CountFor(reviews, b), Priority(b), CountFor(reviews, a), Priority(a))
  {
    var ballot := BallotFor(reviews);
    assert a in ballot <==> CountFor(reviews, a) > 0;
    if a in ballot {
      forall b | b in BY_SEVERITY
        ensures b in ballot ==> (Over(ballot, b, a) <==>
                                 Beats(CountFor(reviews, b), Priority(b), CountFor(reviews, a), Priority(a)))
        ensures b !in ballot ==> !Beats(CountFor(reviews, b), Priority(b), CountFor(reviews, a), Priority(a))
      {
      }
      assert forall b :: b in ballot ==> b in BY_SEVERITY;
    }
  }

  /** Reviews come out for an action exactly if it is the severest of those with the most votes. */
  lemma TheSeverestOfTheMost(reviews: seq<Review>, k: nat)
    requires k < 4
    ensures CameOutFor(reviews, BY_SEVERITY[k]) <==> FirstOfTheMost(reviews, k)
  {
    TopOfListed(reviews, BY_SEVERITY[k]);
    assert BY_SEVERITY[0] == Suspend && BY_SEVERITY[1] == Timeout && BY_SEVERITY[2] == Quarantine
           && BY_SEVERITY[3] == Warn;
  }

  /** And for none but the four. */
  lemma NoneButTheFour(reviews: seq<Review>, a: Action)
    requires CameOutFor(reviews, a)
    ensures a == Suspend || a == Timeout || a == Quarantine || a == Warn
  {
  }

  function VotesOf(reviews: seq<Review>, severity: Severity): nat {
    if reviews == [] then 0
    else VotesOf(reviews[..|reviews| - 1], severity)
         + (if Votes(reviews[|reviews| - 1]) && reviews[|reviews| - 1].severity == severity then 1 else 0)
  }

  /** A critical vote counts four points, a high one three, a medium one two and a low one one. */
  lemma {:induction false} PointsByVotes(reviews: seq<Review>)
    ensures Points(reviews) == 4 * VotesOf(reviews, Critical) + 3 * VotesOf(reviews, High)
                               + 2 * VotesOf(reviews, Medium) + VotesOf(reviews, Lower)
  {
    if reviews != [] {
      PointsByVotes(reviews[..|reviews| - 1]);
    }
  }

  /** So many reviewers are half the seats, two if there are two, and one at least. */
  predicate EnoughReviewers(m: int, seats: int) { 2 * m >= seats && (seats >= 2 ==> m >= 2) && m >= 1 }

  /** The threshold asks for the least such number, and for two points a seat, four at least. */
  lemma ThresholdIsLeast(users: int, m: int)
    ensures EnoughReviewers(MinReviewers(users), ReviewerSeats(users))
    ensures m < MinReviewers(users) ==> !EnoughReviewers(m, ReviewerSeats(users))
    ensures MinPoints(users) >= 4 && MinPoints(users) >= 2 * ReviewerSeats(users)
    ensures MinPoints(users) == 4 || MinPoints(users) == 2 * ReviewerSeats(users)
    ensures users <= 0 ==> ReviewerSeats(users) == 0
  {
  }
}
