/**
 The auto-governance worker over all its rounds: how far apart the terms it grants to one
 identity are, and how many identities hold a valid term at once.
 */
module GovernanceTerms {
  import opened Wrappers
  import opened Governance
  import opened AutoGovernance

  /** A credential the worker minted. It is never deleted, and lasts two weeks. */
  datatype Grant = Grant(gaiaId: string, role: Role, at: Time)

  const TERM: Time := 14 * DAY

  predicate Shows(g: Grant, c: Credential) { c.role == g.role && c.validFrom == g.at && c.validUntil == g.at + TERM }

  /** What `HasRole` asks of a credential that is not revoked. */
  predicate ValidAt(g: Grant, t: Time) { g.at <= t <= g.at + TERM }

  /** The store's answer for an identity holds every credential it was granted, and maybe more. */
  predicate Answers(grants: seq<Grant>, id: Identity) {
    forall k :: 0 <= k < |grants| && grants[k].gaiaId == id.gaiaId ==> Answered(grants[k], id)
  }

  predicate Answered(g: Grant, id: Identity) {
    exists j :: 0 <= j < |id.credentials| && Shows(g, id.credentials[j])
  }

  /** One round: what it finds, whom the store refuses, what it mints. */
  datatype Round = Round(now: Time, identities: seq<Identity>, failing: set<string>, minted: seq<Minted>)

  datatype State = State(clock: Time, grants: seq<Grant>)

  function Init(): State { State(0, []) }

  /** What `RunAutoGovernance` promises of what it mints. */
  predicate Promised(r: Round) {
    && GoesToCandidates(r.identities, r.now, r.minted) && WithinSeats(r.identities, r.now, r.minted)
    && MintedExactly(r.identities, r.now, r.failing, r.minted)
  }

  predicate Rechecked(identities: seq<Identity>) { forall i :: 0 <= i < |identities| ==> identities[i].rechecked }

  /** `readsFail` says whether asking for credentials once more, before minting, may fail. */
  predicate Enabled(readsFail: bool, s: State, r: Round) {
    && s.clock < r.now && UniqueIds(r.identities) && Promised(r)
    && (forall i :: 0 <= i < |r.identities| ==> Answers(s.grants, r.identities[i]))
    && (readsFail || Rechecked(r.identities))
  }

  function Granted(minted: seq<Minted>, now: Time): (grants: seq<Grant>)
    ensures |grants| == |minted|
    ensures forall k :: 0 <= k < |grants| ==> grants[k] == Grant(minted[k].gaiaId, minted[k].role, now)
  {
    seq(|minted|, k requires 0 <= k < |minted| => Grant(minted[k].gaiaId, minted[k].role, now))
  }

  function Apply(s: State, r: Round): State { State(r.now, s.grants + Granted(r.minted, r.now)) }

  function Run(s: State, rounds: seq<Round>): State {
    if rounds == [] then s else Apply(Run(s, rounds[..|rounds| - 1]), rounds[|rounds| - 1])
  }

  predicate Allowed(readsFail: bool, s: State, rounds: seq<Round>) {
    rounds == [] || (Allowed(readsFail, s, rounds[..|rounds| - 1])
                     && Enabled(readsFail, Run(s, rounds[..|rounds| - 1]), rounds[|rounds| - 1]))
  }

  // ----- Terms of one identity

  /** Renewed eleven days after the last term began, or later. */
  predicate Apart(grants: seq<Grant>) {
    forall i, j :: 0 <= i < j < |grants| && grants[i].gaiaId == grants[j].gaiaId ==>
      grants[j].at >= grants[i].at + 950400
  }

  /** Granted in the past, to reviewers. */
  predicate Past(s: State) {
    forall k :: 0 <= k < |s.grants| ==> s.grants[k].at <= s.clock && !s.grants[k].role.OtherRole?
  }

  lemma MintedIsReviewer(readsFail: bool, s: State, r: Round, m: nat)
    requires Enabled(readsFail, s, r) && m < |r.minted|
    ensures !r.minted[m].role.OtherRole?
  {
    assert Deserved(r.minted[m], r.identities, r.now);
  }

  lemma RoundKeepsPast(readsFail: bool, s: State, r: Round)
    requires Past(s) && Enabled(readsFail, s, r)
    ensures Past(Apply(s, r))
  {
    forall m | 0 <= m < |r.minted| ensures !r.minted[m].role.OtherRole? {
      MintedIsReviewer(readsFail, s, r, m);
    }
  }

  /** A term is current, and keeps its seat, for the eleven days after the moment it was granted. */
  lemma CurrentExactly(g: Grant, c: Credential, now: Time)
    requires Shows(g, c) && !g.role.OtherRole?
    ensures Current(c, now) <==> g.at < now < g.at + 950400
  {
  }

  /** Whoever is minted had no current term. */
  lemma MintedIsDue(s: State, r: Round, m: nat, k: nat)
    requires Past(s) && Enabled(false, s, r) && m < |r.minted| && k < |s.grants|
    requires s.grants[k].gaiaId == r.minted[m].gaiaId
    ensures r.now >= s.grants[k].at + 950400
  {
    var minted, g := r.minted[m], s.grants[k];
    assert Deserved(minted, r.identities, r.now);
    var i :| 0 <= i < |r.identities| && Candidate(r.identities[i]) && Fits(minted, r.identities[i], r.now);
    var id := r.identities[i];
    assert Answers(s.grants, id) && Answered(g, id);
    var j :| 0 <= j < |id.credentials| && Shows(g, id.credentials[j]);
    CurrentExactly(g, id.credentials[j], r.now);
  }

  lemma RoundKeepsApart(s: State, r: Round)
    requires Past(s) && Apart(s.grants) && Enabled(false, s, r)
    ensures Apart(Apply(s, r).grants)
  {
    var n, grants := |s.grants|, Apply(s, r).grants;
    forall i, j | 0 <= i < j < |grants| && grants[i].gaiaId == grants[j].gaiaId
      ensures grants[j].at >= grants[i].at + 950400
    {
      if i < n <= j {
        MintedIsDue(s, r, j - n, i);
      }
    }
  }

  lemma {:induction false} RunKeepsApart(rounds: seq<Round>)
    requires Allowed(false, Init(), rounds)
    ensures Past(Run(Init(), rounds)) && Apart(Run(Init(), rounds).grants)
  {
    if rounds != [] {
      var s, r := Run(Init(), rounds[..|rounds| - 1]), rounds[|rounds| - 1];
      RunKeepsApart(rounds[..|rounds| - 1]);
      RoundKeepsPast(false, s, r);
      RoundKeepsApart(s, r);
    }
  }

  // ----- Identities with a valid term

  /** Granted in the eleven days up to a moment. */
  function Recent(grants: seq<Grant>, t: Time): set<string> {
    set k | 0 <= k < |grants| && t - 950400 < grants[k].at <= t :: grants[k].gaiaId
  }

  function Holders(grants: seq<Grant>, t: Time): set<string> {
    set k | 0 <= k < |grants| && ValidAt(grants[k], t) :: grants[k].gaiaId
  }

  /** In good standing, with the term on file and not revoked. */
  predicate KeepsSeat(identities: seq<Identity>, g: Grant) {
    exists i, j :: (0 <= i < |identities| && identities[i].gaiaId == g.gaiaId && Counts(identities[i])
                    && 0 <= j < |identities[i].credentials| && Shows(g, identities[i].credentials[j])
                    && !identities[i].credentials[j].revoked)
  }

  /** The node has the given number of seats, and counts everybody with a current term. */
  predicate Steady(seats: nat, s: State, r: Round) {
    && ReviewerSeats(|Users(r.identities)|) == seats
    && forall k :: 0 <= k < |s.grants| && r.now < s.grants[k].at + 950400 ==> KeepsSeat(r.identities, s.grants[k])
  }

  predicate AllSteady(seats: nat, s: State, rounds: seq<Round>) {
    rounds == [] || (AllSteady(seats, s, rounds[..|rounds| - 1])
                     && Steady(seats, Run(s, rounds[..|rounds| - 1]), rounds[|rounds| - 1]))
  }

  /** No more terms begin in eleven days than there are seats. */
  ghost predicate Within(seats: nat, grants: seq<Grant>) {
    forall t: Time :: |Recent(grants, t)| <= seats
  }

  lemma SeatIsCounted(s: State, r: Round, k: nat)
    requires Past(s) && s.clock < r.now && k < |s.grants| && r.now < s.grants[k].at + 950400
    requires KeepsSeat(r.identities, s.grants[k])
    ensures s.grants[k].gaiaId in Reviewers(r.identities, r.now)
  {
    var g := s.grants[k];
    var i, j :| 0 <= i < |r.identities| && r.identities[i].gaiaId == g.gaiaId && Counts(r.identities[i])
                && 0 <= j < |r.identities[i].credentials| && Shows(g, r.identities[i].credentials[j])
                && !r.identities[i].credentials[j].revoked;
    CurrentExactly(g, r.identities[i].credentials[j], r.now);
    assert HoldsSeat(r.identities[i], r.now);
  }

  lemma Smaller(a: set<string>, b: set<string>)
    requires a <= b
    ensures |a| <= |b|
  {
    assert b == a + (b - a);
  }

  lemma RecentAfterRound(s: State, r: Round, t: Time)
    requires Past(s) && s.clock < r.now
    ensures t < r.now ==> Recent(Apply(s, r).grants, t) == Recent(s.grants, t)
    ensures r.now <= t ==> Recent(Apply(s, r).grants, t)
                           <= Recent(s.grants, r.now) + Recipients(r.minted)
  {
    var n, grants := |s.grants|, Apply(s, r).grants;
    assert forall k :: 0 <= k < n ==> grants[k] == s.grants[k];
    assert forall k :: n <= k < |grants| ==> grants[k].at == r.now && grants[k].gaiaId == r.minted[k - n].gaiaId;
  }

  /** What a round adds stays within the seats. */
  lemma RoundFillsSeats(readsFail: bool, seats: nat, s: State, r: Round)
    requires Past(s) && Enabled(readsFail, s, r) && Steady(seats, s, r) && r.minted != []
    requires |Reviewers(r.identities, r.now)| < seats
    ensures |Recent(s.grants, r.now) + Recipients(r.minted)| <= seats
  {
    var current, reviewers := Recent(s.grants, r.now), Reviewers(r.identities, r.now);
    forall id | id in current ensures id in reviewers {
      var k :| 0 <= k < |s.grants| && r.now - 950400 < s.grants[k].at <= r.now && s.grants[k].gaiaId == id;
      SeatIsCounted(s, r, k);
    }
    Smaller(current + Recipients(r.minted), reviewers + Recipients(r.minted));
  }

  lemma PlaceOf(identities: seq<Identity>, now: Time, minted: seq<Minted>) returns (k: nat)
    requires UniqueIds(identities) && GoesToCandidates(identities, now, minted) && minted != []
    ensures var order := StablySorted(Candidates(identities)); k < |order| && order[k].gaiaId == minted[0].gaiaId
  {
    var order := StablySorted(Candidates(identities));
    OrderIsRight(identities);
    assert Deserved(minted[0], identities, now);
    var i :| 0 <= i < |identities| && Candidate(identities[i]) && Fits(minted[0], identities[i], now);
    assert identities[i] in order;
    k :| 0 <= k < |order| && order[k] == identities[i];
  }

  /** Nobody is minted where no seat is left. */
  lemma NoSeatNoMint(r: Round)
    requires UniqueIds(r.identities) && Promised(r)
    requires |Reviewers(r.identities, r.now)| >= ReviewerSeats(|Users(r.identities)|)
    ensures r.minted == []
  {
    if r.minted != [] {
      var order := StablySorted(Candidates(r.identities));
      var k := PlaceOf(r.identities, r.now, r.minted);
      assert order[k].gaiaId in Recipients(r.minted);
      Smaller(Reviewers(r.identities, r.now),
              Reviewers(r.identities, r.now) + MintableIds(order, k, r.now, r.failing));
    }
  }

  lemma RoundKeepsWithin(readsFail: bool, seats: nat, s: State, r: Round)
    requires Past(s) && Within(seats, s.grants) && Enabled(readsFail, s, r) && Steady(seats, s, r)
    ensures Within(seats, Apply(s, r).grants)
  {
    if |Reviewers(r.identities, r.now)| >= seats {
      NoSeatNoMint(r);
      assert Apply(s, r).grants == s.grants;
    } else if r.minted == [] {
      assert Apply(s, r).grants == s.grants;
    } else {
      RoundFillsSeats(readsFail, seats, s, r);
      var bound := Recent(s.grants, r.now) + Recipients(r.minted);
      forall t: Time ensures |Recent(Apply(s, r).grants, t)| <= seats {
        RecentAfterRound(s, r, t);
        if r.now <= t {
          Smaller(Recent(Apply(s, r).grants, t), bound);
        }
      }
    }
  }

  lemma NothingIsRecent(seats: nat)
    ensures Past(Init()) && Within(seats, Init().grants)
  {
    forall t: Time ensures |Recent(Init().grants, t)| <= seats {
      assert Recent(Init().grants, t) == {};
    }
  }

  lemma {:induction false} RunKeepsWithin(readsFail: bool, seats: nat, rounds: seq<Round>)
    requires Allowed(readsFail, Init(), rounds) && AllSteady(seats, Init(), rounds)
    ensures Past(Run(Init(), rounds)) && Within(seats, Run(Init(), rounds).grants)
  {
    if rounds == [] {
      NothingIsRecent(seats);
    } else {
      var s, r := Run(Init(), rounds[..|rounds| - 1]), rounds[|rounds| - 1];
      RunKeepsWithin(readsFail, seats, rounds[..|rounds| - 1]);
      RoundKeepsPast(readsFail, s, r);
      RoundKeepsWithin(readsFail, seats, s, r);
    }
  }

  lemma HoldersInTwoSpans(grants: seq<Grant>, t: Time)
    ensures Holders(grants, t)
            <= Recent(grants, t) + Recent(grants, t - 950400)
  {
  }

  lemma SumIsLarger(a: set<string>, b: set<string>)
    ensures |a + b| <= |a| + |b|
  {
    assert a + b == a + (b - a);
    Smaller(b - a, b);
  }

  lemma HoldersAreRecent(seats: nat, grants: seq<Grant>, t: Time)
    requires Within(seats, grants)
    ensures |Holders(grants, t)| <= 2 * seats
  {
    var late, early := Recent(grants, t), Recent(grants, t - 950400);
    HoldersInTwoSpans(grants, t);
    Smaller(Holders(grants, t), late + early);
    SumIsLarger(late, early);
  }

  /**
   Over every run on a node whose seats do not change and which counts everybody with a current term: at no
   moment do more than twice as many identities hold a valid term as there are seats.
   */
  lemma AtMostTwiceTheSeats(readsFail: bool, seats: nat, rounds: seq<Round>, t: Time)
    requires Allowed(readsFail, Init(), rounds) && AllSteady(seats, Init(), rounds)
    ensures |Holders(Run(Init(), rounds).grants, t)| <= 2 * seats
  {
    RunKeepsWithin(readsFail, seats, rounds);
    HoldersAreRecent(seats, Run(Init(), rounds).grants, t);
  }

  // ----- A node with one seat

  lemma OneRecipient(name: string)
    ensures Recipients([Minted(name, TrustedReviewer)]) == {name}
    ensures SeniorRecipients([Minted(name, TrustedReviewer)]) == {}
  {
    RecipientsOneMore([], Minted(name, TrustedReviewer));
    assert [] + [Minted(name, TrustedReviewer)] == [Minted(name, TrustedReviewer)];
  }

  /** The first in the ranking gets it. */
  lemma FirstGetsTheSeat(ids: seq<Identity>, now: Time, i: nat)
    requires UniqueIds(ids) && i < |ids| && Candidate(ids[i]) && !PassedOver(ids[i], now)
    requires forall j :: 0 <= j < |ids| && j != i && Candidate(ids[j]) ==> RanksAbove(ids[i], ids[j])
    requires Reviewers(ids, now) == {} && ReviewerSeats(|Users(ids)|) == 1
    ensures Promised(Round(now, ids, {}, [Minted(ids[i].gaiaId, TrustedReviewer)]))
  {
    var x, order := ids[i], StablySorted(Candidates(ids));
    var minted := [Minted(x.gaiaId, TrustedReviewer)];
    OrderIsRight(ids);
    assert x in order;
    FirstInOrder(ids, order, i);
    OneRecipient(x.gaiaId);
    assert Fits(minted[0], x, now) && Deserved(minted[0], ids, now);
    FirstAlone(order, now, minted);
    assert Seniors(ids, now) + {} == Seniors(ids, now);
  }

  lemma FirstInOrder(ids: seq<Identity>, order: seq<Identity>, i: nat)
    requires i < |ids| && ids[i] in order && Ranked(order) && forall x :: x in order ==> x in ids && Candidate(x)
    requires forall j :: 0 <= j < |ids| && j != i && Candidate(ids[j]) ==> RanksAbove(ids[i], ids[j])
    ensures order[0] == ids[i]
  {
    var k :| 0 <= k < |order| && order[k] == ids[i];
    assert order[0] in order;
    var j :| 0 <= j < |ids| && ids[j] == order[0];
    assert j == i || RanksAbove(ids[i], order[0]);
  }

  lemma FirstAlone(order: seq<Identity>, now: Time, minted: seq<Minted>)
    requires order != [] && UniqueIds(order) && !PassedOver(order[0], now) && Recipients(minted) == {order[0].gaiaId}
    ensures MintedDown(order, now, {}, {}, 1, minted)
  {
    assert {} + MintableIds(order, 0, now, {}) == {};
    forall i | 0 < i < |order| ensures !SeatLeft(order, i, now, {}, {}, 1) {
      assert order[0].gaiaId in MintableIds(order, i, now, {});
      Smaller({order[0].gaiaId}, {} + MintableIds(order, i, now, {}));
    }
  }

  /** An identity of a user, with what it sent and was granted; `open` is a case against it. */
  function Person(name: string, user: nat, messages: nat, terms: seq<Credential>, open: nat): Identity {
    Identity(name, user, true, false, 0, Some(open), None, Some(messages), terms, true, true)
  }

  function TermFrom(at: Time): Credential { Credential(TrustedReviewer, at, at + TERM, false) }

  function Mints(now: Time, ids: seq<Identity>, name: string): Round {
    Round(now, ids, {}, [Minted(name, TrustedReviewer)])
  }

  lemma OneMore(readsFail: bool, s: State, rounds: seq<Round>, r: Round)
    requires Allowed(readsFail, s, rounds) && Enabled(readsFail, Run(s, rounds), r)
    ensures Allowed(readsFail, s, rounds + [r]) && Run(s, rounds + [r]) == Apply(Run(s, rounds), r)
  {
    assert (rounds + [r])[..|rounds|] == rounds;
  }

  lemma RunOfTwo(readsFail: bool, s: State, a: Round, b: Round)
    requires Enabled(readsFail, s, a) && Enabled(readsFail, Apply(s, a), b)
    ensures Allowed(readsFail, s, [a, b]) && Run(s, [a, b]) == Apply(Apply(s, a), b)
  {
    OneMore(readsFail, s, [], a);
    assert [] + [a] == [a] && [a] + [b] == [a, b];
    OneMore(readsFail, s, [a], b);
  }

  lemma SteadyTwice(seats: nat, s: State, a: Round, b: Round)
    requires Steady(seats, s, a) && Steady(seats, Apply(s, a), b)
    ensures AllSteady(seats, s, [a, b])
  {
    assert [a, b][..1] == [a] && [a][..0] == [];
    assert Run(s, [a]) == Apply(s, a) && AllSteady(seats, s, [a]);
  }

  lemma Mintings(a: Round, b: Round, first: string, second: string)
    requires a == Mints(a.now, a.identities, first) && b == Mints(b.now, b.identities, second)
    ensures var g, h := Grant(first, TrustedReviewer, a.now), Grant(second, TrustedReviewer, b.now);
            Apply(Init(), a) == State(a.now, [g]) && Apply(Apply(Init(), a), b) == State(b.now, [g, h])
  {
  }

  lemma OneGrantAnswered(g: Grant, id: Identity)
    requires id.gaiaId == g.gaiaId ==> id.credentials != [] && Shows(g, id.credentials[0])
    ensures Answers([g], id)
  {
    if id.gaiaId == g.gaiaId {
      assert Answered(g, id);
    }
  }

  /** The second round, after one grant. */
  lemma SecondRound(readsFail: bool, g: Grant, r: Round)
    requires g.at < r.now && UniqueIds(r.identities) && Promised(r) && (readsFail || Rechecked(r.identities))
    requires forall i :: 0 <= i < |r.identities| && r.identities[i].gaiaId == g.gaiaId ==>
               r.identities[i].credentials != [] && Shows(g, r.identities[i].credentials[0])
    ensures Enabled(readsFail, State(g.at, [g]), r)
  {
    forall i | 0 <= i < |r.identities| ensures Answers([g], r.identities[i]) {
      OneGrantAnswered(g, r.identities[i]);
    }
  }

  lemma FirstRound(readsFail: bool, r: Round)
    requires 0 < r.now && UniqueIds(r.identities) && Promised(r) && (readsFail || Rechecked(r.identities))
    ensures Enabled(readsFail, Init(), r)
  {
  }

  // ----- Unread: terms overlap

  function Unread(id: Identity): Identity { id.(counted := false, rechecked := false) }

  lemma AloneGetsTheSeat(id: Identity, now: Time)
    requires Candidate(id) && id.active && !PassedOver(id, now) && !(Counts(id) && HoldsSeat(id, now))
    ensures Promised(Mints(now, [id], id.gaiaId))
  {
    var ids := [id];
    assert ids[0] == id;
    assert Users(ids) == {id.user};
    assert Reviewers(ids, now) == {};
    FirstGetsTheSeat(ids, now, 0);
  }

  /** A holder who cannot be looked up is granted another term in the next round. */
  lemma UnreadOverlaps(name: string) returns (rounds: seq<Round>)
    ensures Allowed(true, Init(), rounds) && !Apart(Run(Init(), rounds).grants)
  {
    var first, again := Unread(Person(name, 0, 5, [], 0)), Unread(Person(name, 0, 5, [TermFrom(1)], 0));
    var a, b := Mints(1, [first], name), Mints(2, [again], name);
    AloneGetsTheSeat(first, 1);
    AloneGetsTheSeat(again, 2);
    Mintings(a, b, name, name);
    FirstRound(true, a);
    SecondRound(true, Grant(name, TrustedReviewer, 1), b);
    RunOfTwo(true, Init(), a, b);
    OverlappingTerms(name);
    rounds := [a, b];
  }

  lemma OverlappingTerms(name: string)
    ensures !Apart([Grant(name, TrustedReviewer, 1), Grant(name, TrustedReviewer, 2)])
  {
    var grants := [Grant(name, TrustedReviewer, 1), Grant(name, TrustedReviewer, 2)];
    assert grants[0].gaiaId == grants[1].gaiaId && grants[1].at < grants[0].at + 950400;
  }

  ghost predicate TermsApart(readsFail: bool) {
    forall rounds :: Allowed(readsFail, Init(), rounds) ==> Apart(Run(Init(), rounds).grants)
  }

  /** Over every run two terms of one identity begin at least eleven days apart, exactly if asking for the
      credentials once more does not fail. */
  lemma TermsApartExactly(readsFail: bool)
    ensures TermsApart(readsFail) <==> !readsFail
  {
    if readsFail {
      var rounds := UnreadOverlaps("");
    } else {
      forall rounds | Allowed(false, Init(), rounds) ensures Apart(Run(Init(), rounds).grants) {
        RunKeepsApart(rounds);
      }
    }
  }

  // ----- Two holders, one seat

  lemma TwoOfTwo(x: Identity, y: Identity, now: Time, i: nat)
    requires x.gaiaId != y.gaiaId && x.active && y.active && x.user != y.user
    requires !HasCurrent(x, now) && !HasCurrent(y, now)
    requires i < 2 && Candidate([x, y][i]) && (Candidate([x, y][1 - i]) ==> RanksAbove([x, y][i], [x, y][1 - i]))
    ensures UniqueIds([x, y]) && ReviewerSeats(|Users([x, y])|) == 1
    ensures Promised(Mints(now, [x, y], [x, y][i].gaiaId))
  {
    var ids := [x, y];
    assert ids[0] == x && ids[1] == y;
    assert Users(ids) == {x.user, y.user};
    assert Reviewers(ids, now) == {};
    FirstGetsTheSeat(ids, now, i);
  }

  /** Two users, of whom one has sent something. */
  lemma FirstTerm(x: string, y: string) returns (r: Round)
    requires x != y
    ensures Enabled(false, Init(), r) && Steady(1, Init(), r) && r == Mints(1, r.identities, x)
  {
    var x0, y0 := Person(x, 0, 6, [], 0), Person(y, 1, 0, [], 0);
    TwoOfTwo(x0, y0, 1, 0);
    r := Mints(1, [x0, y0], x);
    FirstRound(false, r);
  }

  /** Eleven days later the other one is ahead. */
  lemma SecondTerm(x: string, y: string) returns (r: Round)
    requires x != y
    ensures Enabled(false, State(1, [Grant(x, TrustedReviewer, 1)]), r)
    ensures Steady(1, State(1, [Grant(x, TrustedReviewer, 1)]), r) && r == Mints(950401, r.identities, y)
  {
    var g, x1, y1 := Grant(x, TrustedReviewer, 1), Person(x, 0, 6, [TermFrom(1)], 0), Person(y, 1, 7, [], 0);
    CurrentExactly(g, TermFrom(1), 950401);
    TwoOfTwo(x1, y1, 950401, 1);
    r := Mints(950401, [x1, y1], y);
    SecondRound(false, g, r);
  }

  lemma TwoHold(g: Grant, h: Grant, t: Time)
    requires g.gaiaId != h.gaiaId && ValidAt(g, t) && ValidAt(h, t)
    ensures |Holders([g, h], t)| == 2
  {
    var grants := [g, h];
    assert grants[0] == g && grants[1] == h;
    assert Holders(grants, t) == {g.gaiaId, h.gaiaId};
  }

  /** The bound is reached: with one seat, two identities hold a valid term at the same moment. */
  lemma TwiceTheSeatsIsReached(x: string, y: string) returns (rounds: seq<Round>, t: Time)
    requires x != y
    ensures Allowed(false, Init(), rounds) && AllSteady(1, Init(), rounds)
    ensures |Holders(Run(Init(), rounds).grants, t)| == 2
  {
    var a := FirstTerm(x, y);
    var b := SecondTerm(x, y);
    Mintings(a, b, x, y);
    RunOfTwo(false, Init(), a, b);
    SteadyTwice(1, Init(), a, b);
    TwoHold(Grant(x, TrustedReviewer, 1), Grant(y, TrustedReviewer, 950401), 950401);
    rounds, t := [a, b], 950401;
  }

  // ----- A case against every holder

  function Name(k: nat): string { seq(k, _ => 'a') }

  function FirstGrants(n: nat): (grants: seq<Grant>)
    ensures |grants| == n && forall k :: 0 <= k < n ==> grants[k] == Grant(Name(k), TrustedReviewer, k + 1)
  {
    seq(n, k requires 0 <= k < n => Grant(Name(k), TrustedReviewer, k + 1))
  }

  /** Everybody granted a term so far has a case by now, and one more identity does not; all are of one user. */
  function Accused(n: nat): (ids: seq<Identity>)
    ensures |ids| == n + 1 && ids[n] == Person(Name(n), 0, 5, [], 0)
    ensures forall k :: 0 <= k < n ==> ids[k] == Person(Name(k), 0, 5, [TermFrom(k + 1)], 1)
  {
    seq(n, k requires 0 <= k < n => Person(Name(k), 0, 5, [TermFrom(k + 1)], 1)) + [Person(Name(n), 0, 5, [], 0)]
  }

  lemma NamesDiffer(ids: seq<Identity>)
    requires forall k :: 0 <= k < |ids| ==> ids[k].gaiaId == Name(k)
    ensures UniqueIds(ids)
  {
    forall i, j | 0 <= i < j < |ids| ensures ids[i].gaiaId != ids[j].gaiaId {
      assert |ids[i].gaiaId| == i && |ids[j].gaiaId| == j;
    }
  }

  lemma NobodyCounts(n: nat, now: Time)
    ensures UniqueIds(Accused(n)) && Users(Accused(n)) == {0} && Reviewers(Accused(n), now) == {}
  {
    NamesDiffer(Accused(n));
    assert Accused(n)[n].active && Accused(n)[n].user == 0;
  }

  lemma NextGetsTheSeat(n: nat)
    ensures UniqueIds(Accused(n)) && ReviewerSeats(|Users(Accused(n))|) == 1
    ensures Promised(Mints(n + 1, Accused(n), Name(n)))
  {
    NobodyCounts(n, n + 1);
    FirstGetsTheSeat(Accused(n), n + 1, n);
  }

  lemma AccusedAnswered(n: nat, i: nat)
    requires i <= n
    ensures Answers(FirstGrants(n), Accused(n)[i])
  {
    var grants, id := FirstGrants(n), Accused(n)[i];
    forall k | 0 <= k < n && grants[k].gaiaId == id.gaiaId ensures Answered(grants[k], id) {
      assert |grants[k].gaiaId| == k && |id.gaiaId| == i;
      assert Shows(grants[k], id.credentials[0]);
    }
  }

  lemma OneMoreGrant(n: nat, ids: seq<Identity>)
    ensures Apply(State(n, FirstGrants(n)), Mints(n + 1, ids, Name(n))) == State(n + 1, FirstGrants(n + 1))
  {
  }

  lemma IsEnabled(readsFail: bool, s: State, r: Round)
    requires s.clock < r.now && UniqueIds(r.identities) && Promised(r) && (readsFail || Rechecked(r.identities))
    requires forall i :: 0 <= i < |r.identities| ==> Answers(s.grants, r.identities[i])
    ensures Enabled(readsFail, s, r)
  {
  }

  lemma NextRoundIsEnabled(n: nat)
    ensures Enabled(false, State(n, FirstGrants(n)), Mints(n + 1, Accused(n), Name(n)))
  {
    var ids := Accused(n);
    NextGetsTheSeat(n);
    forall i | 0 <= i < |ids| ensures Answers(FirstGrants(n), ids[i]) {
      AccusedAnswered(n, i);
    }
    assert Rechecked(ids);
    IsEnabled(false, State(n, FirstGrants(n)), Mints(n + 1, ids, Name(n)));
  }

  predicate OneSeat(rounds: seq<Round>) {
    forall k :: 0 <= k < |rounds| ==> ReviewerSeats(|Users(rounds[k].identities)|) == 1
  }

  lemma OneSeatMore(rounds: seq<Round>, r: Round, n: nat)
    requires OneSeat(rounds) && r.identities == Accused(n)
    ensures OneSeat(rounds + [r])
  {
    NobodyCounts(n, 0);
  }

  lemma {:induction false} RoundsOfAccused(n: nat) returns (rounds: seq<Round>)
    ensures Allowed(false, Init(), rounds) && Run(Init(), rounds) == State(n, FirstGrants(n)) && OneSeat(rounds)
  {
    rounds := [];
    if n > 0 {
      var r := Mints(n, Accused(n - 1), Name(n - 1));
      rounds := RoundsOfAccused(n - 1);
      OneSeatMore(rounds, r, n - 1);
      NextRoundIsEnabled(n - 1);
      OneMoreGrant(n - 1, Accused(n - 1));
      OneMore(false, Init(), rounds, r);
      rounds := rounds + [r];
    }
  }

  lemma {:induction false} AllHold(n: nat, t: Time)
    requires n <= t <= 1 + TERM
    ensures |Holders(FirstGrants(n), t)| == n
  {
    var grants := FirstGrants(n);
    if n == 0 {
      assert Holders(grants, t) == {};
    } else {
      var front := FirstGrants(n - 1);
      AllHold(n - 1, t);
      assert grants == front + [grants[n - 1]];
      assert ValidAt(grants[n - 1], t);
      assert Holders(grants, t) == Holders(front, t) + {Name(n - 1)};
      forall k | 0 <= k < n - 1 ensures front[k].gaiaId != Name(n - 1) {
        assert |front[k].gaiaId| == k;
      }
    }
  }

  /**
   A holder with an open case is not counted but keeps the term. So with one seat, and every read going through,
   there is no such bound: as many identities can hold a valid term at once as there are seconds in one.
   */
  lemma NoBoundWithoutStanding(n: nat) returns (rounds: seq<Round>)
    requires n <= 1209600
    ensures Allowed(false, Init(), rounds)
    ensures OneSeat(rounds) && |Holders(Run(Init(), rounds).grants, n)| == n
  {
    rounds := RoundsOfAccused(n);
    AllHold(n, n);
  }
}
