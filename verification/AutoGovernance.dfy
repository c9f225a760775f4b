/**
 One run of the auto-governance worker: who is a candidate, in what order, and who
 is minted a reviewer or senior credential while seats last.
 */
module AutoGovernance {
  import opened Wrappers
  import opened Governance

  const DAY: Time := 24 * 3600
  const MARGIN: Time := 3 * DAY
  const MIN_MESSAGES := 5
  const SENIOR_MESSAGES := 15

  datatype Role = TrustedReviewer | SeniorReviewer | OtherRole

  datatype Credential = Credential(role: Role, validFrom: Time, validUntil: Time, revoked: bool)

  /** An identity with what the store answers about it; `None` is a failed query. The credentials are
      asked for twice: once to count the seats, once more before minting. */
  datatype Identity = Identity(
    gaiaId: string, user: nat, active: bool, exempt: bool, createdAt: Time,
    openCases: Option<nat>, score: Option<int>, messages: Option<nat>,
    credentials: seq<Credential>, counted: bool, rechecked: bool)

  datatype Minted = Minted(gaiaId: string, role: Role)

  // ----- Standing

  /** A reviewer or senior credential that still has more than the margin to run. */
  predicate Current(c: Credential, now: Time) {
    !c.role.OtherRole? && now + MARGIN < c.validUntil && c.validFrom < now
  }

  /** `hasActiveReviewerCredential`: revocation is not looked at. */
  predicate HasCurrent(id: Identity, now: Time) {
    exists i :: 0 <= i < |id.credentials| && Current(id.credentials[i], now)
  }

  predicate HoldsSeat(id: Identity, now: Time) {
    exists i :: 0 <= i < |id.credentials| && Current(id.credentials[i], now) && !id.credentials[i].revoked
  }

  predicate HoldsSeniorSeat(id: Identity, now: Time) {
    exists i :: 0 <= i < |id.credentials| && Current(id.credentials[i], now) && !id.credentials[i].revoked
                && id.credentials[i].role.SeniorReviewer?
  }

  /** A holder is passed over if asking once more worked. */
  predicate PassedOver(id: Identity, now: Time) { id.rechecked && HasCurrent(id, now) }

  /** No open case, no abuse score, and every query answered. */
  predicate InGoodStanding(id: Identity) {
    && !id.exempt && id.openCases == Some(0) && (id.score.Some? ==> id.score.value <= 0) && id.messages.Some?
  }

  predicate Candidate(id: Identity) {
    InGoodStanding(id) && id.messages.value >= MIN_MESSAGES
  }

  /** In good standing, with the credentials answered. */
  predicate Counts(id: Identity) { InGoodStanding(id) && id.counted }

  function Users(identities: seq<Identity>): set<nat> {
    set i | 0 <= i < |identities| && identities[i].active :: identities[i].user
  }

  function Reviewers(identities: seq<Identity>, now: Time): set<string> {
    set i | 0 <= i < |identities| && Counts(identities[i]) && HoldsSeat(identities[i], now) :: identities[i].gaiaId
  }

  function Seniors(identities: seq<Identity>, now: Time): set<string> {
    set i | 0 <= i < |identities| && Counts(identities[i])
      && HoldsSeniorSeat(identities[i], now) :: identities[i].gaiaId
  }

  function Candidates(identities: seq<Identity>): seq<Identity> {
    if identities == [] then []
    else Candidates(identities[..|identities| - 1])
         + (if Candidate(identities[|identities| - 1]) then [identities[|identities| - 1]] else [])
  }

  /** `gaia_id` is unique in the identities table. */
  predicate UniqueIds(identities: seq<Identity>) {
    forall i, j :: 0 <= i < j < |identities| ==> identities[i].gaiaId != identities[j].gaiaId
  }

  // ----- Ranking

  function Messages(id: Identity): nat { if id.messages.Some? then id.messages.value else 0 }

  /** More messages, or as many and an older identity. */
  predicate RanksAbove(a: Identity, b: Identity) {
    Messages(a) > Messages(b) || (Messages(a) == Messages(b) && a.createdAt < b.createdAt)
  }

  predicate Ranked(ids: seq<Identity>) {
    forall i, j :: 0 <= i < j < |ids| ==> !RanksAbove(ids[j], ids[i])
  }

  /** Equals keep the order they came in: the stable sort is determined by its input. */
  function SortedIn(id: Identity, ranked: seq<Identity>): seq<Identity> {
    if ranked == [] || !RanksAbove(id, ranked[|ranked| - 1]) then ranked + [id]
    else SortedIn(id, ranked[..|ranked| - 1]) + [ranked[|ranked| - 1]]
  }

  function StablySorted(ids: seq<Identity>): seq<Identity> {
    if ids == [] then [] else SortedIn(ids[|ids| - 1], StablySorted(ids[..|ids| - 1]))
  }

  lemma {:induction false} SortedInAdds(id: Identity, ranked: seq<Identity>)
    ensures multiset(SortedIn(id, ranked)) == multiset(ranked) + multiset{id}
  {
    if ranked != [] && RanksAbove(id, ranked[|ranked| - 1]) {
      SortedInAdds(id, ranked[..|ranked| - 1]);
      assert ranked == ranked[..|ranked| - 1] + [ranked[|ranked| - 1]];
    }
  }

  lemma RankedMore(inner: seq<Identity>, last: Identity)
    requires Ranked(inner) && forall x :: x in inner ==> !RanksAbove(last, x)
    ensures Ranked(inner + [last])
  {
  }

  lemma {:induction false} SortedInKeeps(id: Identity, ranked: seq<Identity>)
    requires Ranked(ranked)
    ensures Ranked(SortedIn(id, ranked))
  {
    if ranked != [] {
      var front, last := ranked[..|ranked| - 1], ranked[|ranked| - 1];
      if RanksAbove(id, last) {
        SortedInKeeps(id, front);
        SortedInAdds(id, front);
        forall x | x in SortedIn(id, front) ensures !RanksAbove(last, x) {
          assert x in multiset(SortedIn(id, front));
          assert x in front || x == id;
        }
        RankedMore(SortedIn(id, front), last);
      }
    }
  }

  /** Ranked, and the same identities as often. */
  lemma {:induction false} SortIsRanked(ids: seq<Identity>)
    ensures Ranked(StablySorted(ids)) && multiset(StablySorted(ids)) == multiset(ids)
  {
    if ids != [] {
      SortIsRanked(ids[..|ids| - 1]);
      SortedInKeeps(ids[|ids| - 1], StablySorted(ids[..|ids| - 1]));
      SortedInAdds(ids[|ids| - 1], StablySorted(ids[..|ids| - 1]));
      assert ids == ids[..|ids| - 1] + [ids[|ids| - 1]];
    }
  }

  predicate Level(a: Identity, b: Identity) { !RanksAbove(a, b) && !RanksAbove(b, a) }

  /** The identities level with a given one, in order. */
  function LevelWith(ids: seq<Identity>, x: Identity): seq<Identity> {
    if ids == [] then []
    else LevelWith(ids[..|ids| - 1], x) + (if Level(ids[|ids| - 1], x) then [ids[|ids| - 1]] else [])
  }

  lemma {:induction false} SortedInIsStable(id: Identity, ranked: seq<Identity>, x: Identity)
    ensures LevelWith(SortedIn(id, ranked), x) == LevelWith(ranked, x) + (if Level(id, x) then [id] else [])
  {
    if ranked == [] || !RanksAbove(id, ranked[|ranked| - 1]) {
      assert (ranked + [id])[..|ranked|] == ranked;
    } else {
      var front, last := ranked[..|ranked| - 1], ranked[|ranked| - 1];
      SortedInIsStable(id, front, x);
      assert (SortedIn(id, front) + [last])[..|SortedIn(id, front)|] == SortedIn(id, front);
    }
  }

  /** Identities level with each other keep the order they came in. */
  lemma {:induction false} SortIsStable(ids: seq<Identity>, x: Identity)
    ensures LevelWith(StablySorted(ids), x) == LevelWith(ids, x)
  {
    if ids != [] {
      SortIsStable(ids[..|ids| - 1], x);
      SortedInIsStable(ids[|ids| - 1], StablySorted(ids[..|ids| - 1]), x);
    }
  }

  lemma {:induction false} SortedInIsUnique(id: Identity, ranked: seq<Identity>)
    requires UniqueIds(ranked) && forall i :: 0 <= i < |ranked| ==> ranked[i].gaiaId != id.gaiaId
    ensures UniqueIds(SortedIn(id, ranked))
    ensures forall x :: x in SortedIn(id, ranked) <==> x in ranked || x == id
  {
    if ranked != [] && RanksAbove(id, ranked[|ranked| - 1]) {
      var front, last := ranked[..|ranked| - 1], ranked[|ranked| - 1];
      assert ranked == front + [last];
      SortedInIsUnique(id, front);
      var inner := SortedIn(id, front);
      forall i | 0 <= i < |inner| ensures inner[i].gaiaId != last.gaiaId {
        assert inner[i] in inner;
      }
    }
  }

  lemma {:induction false} SortIsUnique(ids: seq<Identity>)
    requires UniqueIds(ids)
    ensures UniqueIds(StablySorted(ids))
    ensures forall x :: x in StablySorted(ids) <==> x in ids
  {
    if ids != [] {
      var front, last := ids[..|ids| - 1], ids[|ids| - 1];
      assert ids == front + [last];
      SortIsUnique(front);
      forall i | 0 <= i < |StablySorted(front)| ensures StablySorted(front)[i].gaiaId != last.gaiaId {
        assert StablySorted(front)[i] in StablySorted(front);
      }
      SortedInIsUnique(last, StablySorted(front));
    }
  }

  lemma {:induction false} CandidatesAreUnique(ids: seq<Identity>)
    requires UniqueIds(ids)
    ensures UniqueIds(Candidates(ids))
    ensures forall x :: x in Candidates(ids) <==> x in ids && Candidate(x)
  {
    if ids != [] {
      var front, last := ids[..|ids| - 1], ids[|ids| - 1];
      assert ids == front + [last];
      CandidatesAreUnique(front);
      forall i | 0 <= i < |Candidates(front)| ensures Candidates(front)[i].gaiaId != last.gaiaId {
        assert Candidates(front)[i] in Candidates(front);
      }
    }
  }

  // ----- The run

  function Recipients(minted: seq<Minted>): set<string> {
    set m | 0 <= m < |minted| :: minted[m].gaiaId
  }

  function SeniorRecipients(minted: seq<Minted>): set<string> {
    set m | 0 <= m < |minted| && minted[m].role.SeniorReviewer? :: minted[m].gaiaId
  }

  function Larger(a: int, b: int): int { if a < b then b else a }

  /** What one minted credential may be. */
  predicate Fits(m: Minted, id: Identity, now: Time) {
    && m.gaiaId == id.gaiaId && !PassedOver(id, now) && !m.role.OtherRole?
    && (m.role.SeniorReviewer? ==> Messages(id) >= SENIOR_MESSAGES)
  }

  predicate Deserved(m: Minted, identities: seq<Identity>, now: Time) {
    exists i :: 0 <= i < |identities| && Candidate(identities[i]) && Fits(m, identities[i], now)
  }

  /** Every recipient is a candidate of the node who was not passed over, and gets one credential. */
  predicate GoesToCandidates(identities: seq<Identity>, now: Time, minted: seq<Minted>) {
    && (forall m :: 0 <= m < |minted| ==> Deserved(minted[m], identities, now))
    && Distinct(minted)
  }

  /** Minting never takes the holders over the seats there are. */
  predicate WithinSeats(identities: seq<Identity>, now: Time, minted: seq<Minted>) {
    var seats := ReviewerSeats(|Users(identities)|);
    var reviewers, seniors := Reviewers(identities, now), Seniors(identities, now);
    && |reviewers + Recipients(minted)| <= Larger(|reviewers|, seats)
    && |seniors + SeniorRecipients(minted)| <= Larger(|seniors|, SeniorSeats(seats))
  }

  /** Neither passed over, nor is the store going to refuse the credential. */
  predicate CanMint(id: Identity, now: Time, failing: set<string>) {
    !PassedOver(id, now) && id.gaiaId !in failing
  }

  /** A candidate who could have been minted. */
  predicate Mintable(id: Identity, now: Time, failing: set<string>) {
    Candidate(id) && CanMint(id, now, failing)
  }

  /** Nobody who could have been minted is passed over for somebody ranked below. */
  predicate InRankOrder(identities: seq<Identity>, now: Time, failing: set<string>, minted: seq<Minted>) {
    forall i, j :: (0 <= i < |identities| && 0 <= j < |identities|
                    && Mintable(identities[i], now, failing) && identities[i].gaiaId !in Recipients(minted)
                    && identities[j].gaiaId in Recipients(minted)) ==> !RanksAbove(identities[i], identities[j])
  }

  /** Minting stops only when the seats are full or nobody is left. */
  predicate SeatsUsed(identities: seq<Identity>, now: Time, failing: set<string>, minted: seq<Minted>) {
    || |Reviewers(identities, now) + Recipients(minted)| >= ReviewerSeats(|Users(identities)|)
    || forall i :: 0 <= i < |identities| && Mintable(identities[i], now, failing) ==>
        identities[i].gaiaId in Recipients(minted)
  }

  /** Those who can be minted among the first `k`. */
  function MintableIds(order: seq<Identity>, k: nat, now: Time, failing: set<string>): set<string>
    requires k <= |order|
  {
    set i | 0 <= i < k && CanMint(order[i], now, failing) :: order[i].gaiaId
  }

  /** A seat is left when it is the turn of number `k`. */
  predicate SeatLeft(order: seq<Identity>, k: nat, now: Time, failing: set<string>, reviewers: set<string>, seats: int)
    requires k <= |order|
  {
    |reviewers + MintableIds(order, k, now, failing)| < seats
  }

  /** Who is minted: those who can be, while seats are left. */
  predicate MintedDown(order: seq<Identity>, now: Time, failing: set<string>, reviewers: set<string>, seats: int,
                       minted: seq<Minted>) {
    forall i :: 0 <= i < |order| ==>
      (order[i].gaiaId in Recipients(minted) <==>
         CanMint(order[i], now, failing) && SeatLeft(order, i, now, failing, reviewers, seats))
  }

  predicate MintedExactly(identities: seq<Identity>, now: Time, failing: set<string>, minted: seq<Minted>) {
    MintedDown(StablySorted(Candidates(identities)), now, failing, Reviewers(identities, now),
               ReviewerSeats(|Users(identities)|), minted)
  }

  /** `uniqueNodeUserCount`. */
  method CountUsers(identities: seq<Identity>) returns (n: nat)
    ensures n == |Users(identities)|
  {
    var seen: set<nat> := {};
    for i := 0 to |identities|
      invariant seen == Users(identities[..i])
    {
      assert identities[..i + 1] == identities[..i] + [identities[i]];
      UsersOneMore(identities[..i], identities[i]);
      if identities[i].active {
        seen := seen + {identities[i].user};
      }
    }
    assert identities[..|identities|] == identities;
    return |seen|;
  }

  lemma UsersOneMore(identities: seq<Identity>, id: Identity)
    ensures Users(identities + [id]) == Users(identities) + (if id.active then {id.user} else {})
  {
    var more := identities + [id];
    assert more[|identities|] == id;
    assert forall i :: 0 <= i < |identities| ==> more[i] == identities[i];
  }

  /** The inner loop over an identity's credentials. */
  method SeatsHeld(id: Identity, now: Time) returns (reviewer: bool, senior: bool)
    ensures reviewer == HoldsSeat(id, now) && senior == HoldsSeniorSeat(id, now)
  {
    reviewer, senior := false, false;
    for i := 0 to |id.credentials|
      invariant reviewer <==> exists j :: 0 <= j < i && Current(id.credentials[j], now) && !id.credentials[j].revoked
      invariant senior <==> exists j :: 0 <= j < i && Current(id.credentials[j], now) && !id.credentials[j].revoked
                                        && id.credentials[j].role.SeniorReviewer?
    {
      var c := id.credentials[i];
      if (c.role.TrustedReviewer? || c.role.SeniorReviewer?) && now + MARGIN < c.validUntil && c.validFrom < now {
        if !c.revoked {
          reviewer := true;
          if c.role.SeniorReviewer? {
            senior := true;
          }
        }
      }
    }
  }

  /** The first loop: standing, seats already held, candidates. */
  method Survey(identities: seq<Identity>, now: Time)
    returns (candidates: seq<Identity>, reviewers: set<string>, seniors: set<string>)
    ensures candidates == Candidates(identities)
    ensures reviewers == Reviewers(identities, now) && seniors == Seniors(identities, now)
  {
    candidates, reviewers, seniors := [], {}, {};
    for i := 0 to |identities|
      invariant candidates == Candidates(identities[..i])
      invariant reviewers == Reviewers(identities[..i], now)
      invariant seniors == Seniors(identities[..i], now)
    {
      var id := identities[i];
      assert identities[..i + 1] == identities[..i] + [id];
      SurveyOneMore(identities[..i], id, now);
      if id.exempt {
        continue;
      }
      if id.openCases.None? || id.openCases.value > 0 {
        continue;
      }
      var score := if id.score.Some? then id.score.value else 0;
      if score > 0 {
        continue;
      }
      if id.messages.None? {
        continue;
      }
      if id.counted {
        var reviewer, senior := SeatsHeld(id, now);
        if reviewer {
          reviewers := reviewers + {id.gaiaId};
          if senior {
            seniors := seniors + {id.gaiaId};
          }
        }
      }
      if id.messages.value >= MIN_MESSAGES {
        candidates := candidates + [id];
      }
    }
    assert identities[..|identities|] == identities;
  }

  lemma SurveyOneMore(identities: seq<Identity>, id: Identity, now: Time)
    ensures Candidates(identities + [id]) == Candidates(identities) + (if Candidate(id) then [id] else [])
    ensures Reviewers(identities + [id], now) ==
            Reviewers(identities, now) + (if Counts(id) && HoldsSeat(id, now) then {id.gaiaId} else {})
    ensures Seniors(identities + [id], now) ==
            Seniors(identities, now) + (if Counts(id) && HoldsSeniorSeat(id, now) then {id.gaiaId} else {})
  {
    var more := identities + [id];
    assert more[..|more| - 1] == identities && more[|identities|] == id;
    assert forall i :: 0 <= i < |identities| ==> more[i] == identities[i];
  }

  method AlreadyCurrent(id: Identity, now: Time) returns (current: bool)
    ensures current == HasCurrent(id, now)
  {
    for i := 0 to |id.credentials|
      invariant forall j :: 0 <= j < i ==> !Current(id.credentials[j], now)
    {
      var c := id.credentials[i];
      if !c.role.TrustedReviewer? && !c.role.SeniorReviewer? {
        continue;
      }
      if now + MARGIN < c.validUntil && c.validFrom < now {
        return true;
      }
    }
    return false;
  }

  /** Every credential minted so far went to one of the first `k` of the ranked candidates. */
  predicate MintedFrom(order: seq<Identity>, k: nat, now: Time, minted: seq<Minted>)
    requires k <= |order|
  {
    forall m :: 0 <= m < |minted| ==>
      exists i :: 0 <= i < k && Fits(minted[m], order[i], now)
  }

  predicate Distinct(minted: seq<Minted>) {
    forall m, n :: 0 <= m < n < |minted| ==> minted[m].gaiaId != minted[n].gaiaId
  }

  /** What the second loop has done after walking through the first `k` of the ranked candidates. */
  predicate Walked(order: seq<Identity>, k: nat, now: Time, failing: set<string>, minted: seq<Minted>)
    requires k <= |order|
  {
    MintedFrom(order, k, now, minted) && Recipients(minted) == MintableIds(order, k, now, failing) && Distinct(minted)
  }

  lemma MintableOneMore(order: seq<Identity>, k: nat, now: Time, failing: set<string>)
    requires k < |order|
    ensures MintableIds(order, k + 1, now, failing)
            == MintableIds(order, k, now, failing) + (if CanMint(order[k], now, failing) then {order[k].gaiaId} else {})
  {
  }

  lemma RecipientsOneMore(minted: seq<Minted>, m: Minted)
    ensures Recipients(minted + [m]) == Recipients(minted) + {m.gaiaId}
    ensures SeniorRecipients(minted + [m])
            == SeniorRecipients(minted) + (if m.role.SeniorReviewer? then {m.gaiaId} else {})
  {
    var more := minted + [m];
    assert more[|minted|] == m;
    assert forall i :: 0 <= i < |minted| ==> more[i] == minted[i];
  }

  lemma SkipOne(order: seq<Identity>, k: nat, now: Time, failing: set<string>, minted: seq<Minted>)
    requires k < |order| && Walked(order, k, now, failing, minted) && !CanMint(order[k], now, failing)
    ensures Walked(order, k + 1, now, failing, minted)
  {
    MintableOneMore(order, k, now, failing);
  }

  lemma MintOneMore(order: seq<Identity>, k: nat, now: Time, failing: set<string>, minted: seq<Minted>, role: Role)
    requires k < |order| && UniqueIds(order) && Walked(order, k, now, failing, minted)
             && CanMint(order[k], now, failing)
    requires !role.OtherRole? && (role.SeniorReviewer? ==> Messages(order[k]) >= SENIOR_MESSAGES)
    ensures Walked(order, k + 1, now, failing, minted + [Minted(order[k].gaiaId, role)])
  {
    var more := minted + [Minted(order[k].gaiaId, role)];
    forall m | 0 <= m < |minted| ensures minted[m].gaiaId != order[k].gaiaId {
      var c := minted[m];
      var i :| 0 <= i < k && Fits(c, order[i], now);
    }
    MintableOneMore(order, k, now, failing);
    RecipientsOneMore(minted, Minted(order[k].gaiaId, role));
    assert Fits(more[|minted|], order[k], now);
  }

  /** While senior seats are left, nobody active enough for one is minted as a plain reviewer. */
  predicate SeniorsFirst(order: seq<Identity>, minted: seq<Minted>) {
    forall m, i :: (0 <= m < |minted| && 0 <= i < |order| && order[i].gaiaId == minted[m].gaiaId
                    && Messages(order[i]) >= SENIOR_MESSAGES) ==> minted[m].role.SeniorReviewer?
  }

  lemma SeniorsOneMore(order: seq<Identity>, k: nat, minted: seq<Minted>, role: Role)
    requires k < |order| && UniqueIds(order) && SeniorsFirst(order, minted)
    requires Messages(order[k]) >= SENIOR_MESSAGES ==> role.SeniorReviewer?
    ensures SeniorsFirst(order, minted + [Minted(order[k].gaiaId, role)])
  {
  }

  /** Those seated are the holders there were and the recipients, within the limit. */
  predicate Seated(seated: set<string>, holders: set<string>, recipients: set<string>, limit: int) {
    seated == holders + recipients && |seated| <= Larger(|holders|, limit)
  }

  lemma SeatOneMore(seated: set<string>, holders: set<string>, recipients: set<string>, limit: int, id: string)
    requires Seated(seated, holders, recipients, limit) && |seated| < limit
    ensures Seated(seated + {id}, holders, recipients + {id}, limit)
  {
    if id in seated {
      assert seated + {id} == seated;
    }
  }

  /** What the second loop keeps true of the seats. */
  ghost predicate Going(order: seq<Identity>, minted: seq<Minted>, reviewers0: set<string>, seniors0: set<string>,
                        seats: int, seniorSeats: int, reviewers: set<string>, seniors: set<string>) {
    && Seated(reviewers, reviewers0, Recipients(minted), seats)
    && Seated(seniors, seniors0, SeniorRecipients(minted), seniorSeats)
    && (|seniors| >= seniorSeats || SeniorsFirst(order, minted))
  }

  /** Senior while there are senior seats and enough messages. */
  function RoleFor(id: Identity, seniors: set<string>, seniorSeats: int): Role {
    if Messages(id) >= SENIOR_MESSAGES && |seniors| < seniorSeats then SeniorReviewer else TrustedReviewer
  }

  lemma MintGoesOn(order: seq<Identity>, k: nat, minted: seq<Minted>, reviewers0: set<string>, seniors0: set<string>,
                   seats: int, seniorSeats: int, reviewers: set<string>, seniors: set<string>)
    requires k < |order| && UniqueIds(order) && |reviewers| < seats
    requires Going(order, minted, reviewers0, seniors0, seats, seniorSeats, reviewers, seniors)
    ensures var id, role := order[k].gaiaId, RoleFor(order[k], seniors, seniorSeats);
            Going(order, minted + [Minted(id, role)], reviewers0, seniors0, seats, seniorSeats,
                  reviewers + {id}, if role.SeniorReviewer? then seniors + {id} else seniors)
  {
    var id, role := order[k].gaiaId, RoleFor(order[k], seniors, seniorSeats);
    RecipientsOneMore(minted, Minted(id, role));
    SeatOneMore(reviewers, reviewers0, Recipients(minted), seats, id);
    if |seniors| < seniorSeats {
      SeniorsOneMore(order, k, minted, role);
    }
    if role.SeniorReviewer? {
      SeatOneMore(seniors, seniors0, SeniorRecipients(minted), seniorSeats, id);
    }
  }

  lemma NobodySeatedYet(order: seq<Identity>, reviewers: set<string>, seniors: set<string>, seats: int,
                        seniorSeats: int)
    ensures Going(order, [], reviewers, seniors, seats, seniorSeats, reviewers, seniors)
  {
    assert reviewers + Recipients([]) == reviewers && seniors + SeniorRecipients([]) == seniors;
  }

  /** Seats were left all the way down to number `k`. */
  predicate SeatsLeft(order: seq<Identity>, k: nat, now: Time, failing: set<string>, reviewers: set<string>, seats: int)
    requires k <= |order|
  {
    forall i :: 0 <= i < k ==> SeatLeft(order, i, now, failing, reviewers, seats)
  }

  lemma SeatsLeftOneMore(order: seq<Identity>, k: nat, now: Time, failing: set<string>, reviewers: set<string>,
                         seats: int, minted: seq<Minted>, seated: set<string>)
    requires k < |order| && SeatsLeft(order, k, now, failing, reviewers, seats)
    requires Recipients(minted) == MintableIds(order, k, now, failing) && seated == reviewers + Recipients(minted)
    ensures SeatLeft(order, k, now, failing, reviewers, seats) <==> |seated| < seats
    ensures |seated| < seats ==> SeatsLeft(order, k + 1, now, failing, reviewers, seats)
  {
  }

  /** The second loop: walks down the ranked candidates while there are seats. */
  method Mint(order: seq<Identity>, now: Time, failing: set<string>, reviewers0: set<string>, seniors0: set<string>,
              seats: int, seniorSeats: int)
    returns (minted: seq<Minted>, ghost walked: nat)
    requires UniqueIds(order)
    ensures walked <= |order| && Walked(order, walked, now, failing, minted)
    ensures |reviewers0 + Recipients(minted)| <= Larger(|reviewers0|, seats)
    ensures |seniors0 + SeniorRecipients(minted)| <= Larger(|seniors0|, seniorSeats)
    ensures SeatsLeft(order, walked, now, failing, reviewers0, seats)
    ensures walked < |order| ==> !SeatLeft(order, walked, now, failing, reviewers0, seats)
    ensures |seniors0 + SeniorRecipients(minted)| >= seniorSeats || SeniorsFirst(order, minted)
  {
    var reviewers, seniors := reviewers0, seniors0;
    minted, walked := [], 0;
    NobodySeatedYet(order, reviewers, seniors, seats, seniorSeats);
    for k := 0 to |order|
      invariant walked == k && Walked(order, k, now, failing, minted)
      invariant Going(order, minted, reviewers0, seniors0, seats, seniorSeats, reviewers, seniors)
      invariant SeatsLeft(order, k, now, failing, reviewers0, seats)
    {
      SeatsLeftOneMore(order, k, now, failing, reviewers0, seats, minted, reviewers);
      if |reviewers| >= seats {
        break;
      }
      var id := order[k];
      var current := id.rechecked;
      if current {
        current := AlreadyCurrent(id, now);
      }
      walked := k + 1;
      if current {
        SkipOne(order, k, now, failing, minted);
        continue;
      }
      var role := TrustedReviewer;
      if Messages(id) >= SENIOR_MESSAGES && |seniors| < seniorSeats {
        role := SeniorReviewer;
      }
      if id.gaiaId in failing {
        SkipOne(order, k, now, failing, minted);
        continue;
      }
      MintOneMore(order, k, now, failing, minted, role);
      MintGoesOn(order, k, minted, reviewers0, seniors0, seats, seniorSeats, reviewers, seniors);
      minted := minted + [Minted(id.gaiaId, role)];
      reviewers := reviewers + {id.gaiaId};
      if role == SeniorReviewer {
        seniors := seniors + {id.gaiaId};
      }
    }
  }

  lemma SeatsOnlyFill(order: seq<Identity>, i: nat, j: nat, now: Time, failing: set<string>, reviewers: set<string>,
                      seats: int)
    requires i <= j <= |order| && SeatLeft(order, j, now, failing, reviewers, seats)
    ensures SeatLeft(order, i, now, failing, reviewers, seats)
  {
    SubsetIsSmaller(reviewers + MintableIds(order, i, now, failing), reviewers + MintableIds(order, j, now, failing));
  }

  lemma SubsetIsSmaller(a: set<string>, b: set<string>)
    requires a <= b
    ensures |a| <= |b|
  {
    assert b == a + (b - a);
  }

  lemma WalkedDown(order: seq<Identity>, walked: nat, now: Time, failing: set<string>, reviewers: set<string>,
                   seats: int, minted: seq<Minted>)
    requires walked <= |order| && UniqueIds(order) && Walked(order, walked, now, failing, minted)
    requires SeatsLeft(order, walked, now, failing, reviewers, seats)
    requires walked < |order| ==> !SeatLeft(order, walked, now, failing, reviewers, seats)
    ensures MintedDown(order, now, failing, reviewers, seats, minted)
  {
    forall i | 0 <= i < |order|
      ensures order[i].gaiaId in Recipients(minted) <==>
              CanMint(order[i], now, failing) && SeatLeft(order, i, now, failing, reviewers, seats)
    {
      assert order[i].gaiaId in MintableIds(order, walked, now, failing) <==>
               i < walked && CanMint(order[i], now, failing);
      if walked <= i && SeatLeft(order, i, now, failing, reviewers, seats) {
        SeatsOnlyFill(order, walked, i, now, failing, reviewers, seats);
      }
    }
  }

  /** Ranked candidates of the node: unique, and exactly the candidates. */
  lemma OrderIsRight(identities: seq<Identity>)
    requires UniqueIds(identities)
    ensures var order := StablySorted(Candidates(identities));
            UniqueIds(order) && Ranked(order) && forall x :: x in order <==> x in identities && Candidate(x)
  {
    CandidatesAreUnique(identities);
    SortIsUnique(Candidates(identities));
    SortIsRanked(Candidates(identities));
  }

  lemma WalkGoesToCandidates(identities: seq<Identity>, order: seq<Identity>, k: nat, now: Time, failing: set<string>,
                             minted: seq<Minted>)
    requires k <= |order| && Walked(order, k, now, failing, minted)
    requires forall x :: x in order <==> x in identities && Candidate(x)
    ensures GoesToCandidates(identities, now, minted)
  {
    forall m | 0 <= m < |minted| ensures Deserved(minted[m], identities, now) {
      var c := minted[m];
      var i :| 0 <= i < k && Fits(c, order[i], now);
      assert order[i] in order;
    }
  }

  lemma WalkIsInRankOrder(identities: seq<Identity>, order: seq<Identity>, k: nat, now: Time, failing: set<string>,
                          minted: seq<Minted>)
    requires k <= |order| && UniqueIds(identities) && Ranked(order) && Walked(order, k, now, failing, minted)
    requires forall x :: x in order <==> x in identities && Candidate(x)
    ensures InRankOrder(identities, now, failing, minted)
  {
    forall i, j | 0 <= i < |identities| && 0 <= j < |identities| && Mintable(identities[i], now, failing)
                  && identities[i].gaiaId !in Recipients(minted) && identities[j].gaiaId in Recipients(minted)
      ensures !RanksAbove(identities[i], identities[j])
    {
      var b :| 0 <= b < k && CanMint(order[b], now, failing) && order[b].gaiaId == identities[j].gaiaId;
      assert order[b] in order;
      assert order[b] == identities[j];
      assert identities[i] in order;
      var a :| 0 <= a < |order| && order[a] == identities[i];
      assert a >= k;
    }
  }

  lemma WalkToTheEnd(identities: seq<Identity>, order: seq<Identity>, now: Time, failing: set<string>,
                     minted: seq<Minted>)
    requires Walked(order, |order|, now, failing, minted) && forall x :: x in order <==> x in identities && Candidate(x)
    ensures forall i :: 0 <= i < |identities| && Mintable(identities[i], now, failing) ==>
              identities[i].gaiaId in Recipients(minted)
  {
    forall i | 0 <= i < |identities| && Mintable(identities[i], now, failing)
      ensures identities[i].gaiaId in Recipients(minted)
    {
      assert identities[i] in order;
    }
  }

  predicate SeniorSeatsUsed(identities: seq<Identity>, now: Time, minted: seq<Minted>) {
    || |Seniors(identities, now) + SeniorRecipients(minted)| >= SeniorSeats(ReviewerSeats(|Users(identities)|))
    || SeniorsFirst(Candidates(identities), minted)
  }

  lemma SeniorsFirstByMembers(order: seq<Identity>, candidates: seq<Identity>, minted: seq<Minted>)
    requires SeniorsFirst(order, minted) && forall x :: x in candidates ==> x in order
    ensures SeniorsFirst(candidates, minted)
  {
    forall m, i | 0 <= m < |minted| && 0 <= i < |candidates| && candidates[i].gaiaId == minted[m].gaiaId
                  && Messages(candidates[i]) >= SENIOR_MESSAGES
      ensures minted[m].role.SeniorReviewer?
    {
      assert candidates[i] in order;
    }
  }

  /** One run: seats are never oversubscribed, never wasted, and go down the ranking. */
  method RunAutoGovernance(identities: seq<Identity>, now: Time, failing: set<string>) returns (minted: seq<Minted>)
    requires UniqueIds(identities)
    ensures GoesToCandidates(identities, now, minted)
    ensures WithinSeats(identities, now, minted)
    ensures MintedExactly(identities, now, failing, minted)
    ensures InRankOrder(identities, now, failing, minted)
    ensures SeatsUsed(identities, now, failing, minted)
    ensures SeniorSeatsUsed(identities, now, minted)
  {
    var candidates, reviewers, seniors := Survey(identities, now);
    var order := StablySorted(candidates);
    OrderIsRight(identities);
    var users := CountUsers(identities);
    var seats := ReviewerSeats(users);
    var seniorSeats := SeniorSeats(seats);
    ghost var walked;
    minted, walked := Mint(order, now, failing, reviewers, seniors, seats, seniorSeats);
    WalkedDown(order, walked, now, failing, reviewers, seats, minted);
    WalkGoesToCandidates(identities, order, walked, now, failing, minted);
    WalkIsInRankOrder(identities, order, walked, now, failing, minted);
    if walked == |order| {
      WalkToTheEnd(identities, order, now, failing, minted);
    }
    if SeniorsFirst(order, minted) {
      CandidatesAreUnique(identities);
      SeniorsFirstByMembers(order, candidates, minted);
    }
  }

  // ----- Who, in plain numbers

  /** No case, no score, and a number of messages. */
  predicate Sent(id: Identity, least: nat) {
    && !id.exempt && id.openCases == Some(0) && (id.score == None || id.score.value <= 0)
    && id.messages.Some? && id.messages.value >= least
  }

  lemma RecipientHasEarned(identities: seq<Identity>, now: Time, minted: seq<Minted>, i: nat, m: nat)
    requires UniqueIds(identities) && GoesToCandidates(identities, now, minted)
    requires i < |identities| && m < |minted| && minted[m].gaiaId == identities[i].gaiaId
    ensures Sent(identities[i], 5) && (minted[m].role == SeniorReviewer ==> Sent(identities[i], 15))
  {
    assert Deserved(minted[m], identities, now);
  }

  /** Each recipient sent at least five messages, a senior fifteen; and anybody who sent five and got nothing, and
      was neither passed over nor refused, sent fewer than each recipient, or as many and is no older. */
  lemma EarnedInTurn(identities: seq<Identity>, now: Time, failing: set<string>, minted: seq<Minted>, i: nat, j: nat)
    requires UniqueIds(identities) && GoesToCandidates(identities, now, minted)
    requires InRankOrder(identities, now, failing, minted)
    requires i < |identities| && j < |identities| && identities[j].gaiaId in Recipients(minted)
    ensures Sent(identities[j], 5) && (identities[j].gaiaId in SeniorRecipients(minted) ==> Sent(identities[j], 15))
    ensures Sent(identities[i], 5) && CanMint(identities[i], now, failing)
            && identities[i].gaiaId !in Recipients(minted)
            ==> || identities[i].messages.value < identities[j].messages.value
                || (identities[i].messages == identities[j].messages
                    && identities[i].createdAt >= identities[j].createdAt)
  {
    var m :| 0 <= m < |minted| && minted[m].gaiaId == identities[j].gaiaId;
    RecipientHasEarned(identities, now, minted, j, m);
    if identities[j].gaiaId in SeniorRecipients(minted) {
      var n :| 0 <= n < |minted| && minted[n].role.SeniorReviewer? && minted[n].gaiaId == identities[j].gaiaId;
      RecipientHasEarned(identities, now, minted, j, n);
    }
  }

  /** A live credential: of one of the two roles, begun, with more than three days to run, not revoked. */
  predicate Live(c: Credential, now: Time) {
    && (c.role == TrustedReviewer || c.role == SeniorReviewer)
    && c.validFrom < now && now + 259200 < c.validUntil && !c.revoked
  }

  /** A seat is held exactly in good standing, by a live credential that could be read; a senior one by a senior one. */
  lemma SeatsAreLive(identities: seq<Identity>, now: Time, i: nat)
    requires UniqueIds(identities) && i < |identities|
    ensures identities[i].gaiaId in Reviewers(identities, now) <==>
              && Sent(identities[i], 0) && identities[i].counted
              && exists j :: 0 <= j < |identities[i].credentials| && Live(identities[i].credentials[j], now)
    ensures identities[i].gaiaId in Seniors(identities, now) <==>
              && Sent(identities[i], 0) && identities[i].counted
              && exists j :: 0 <= j < |identities[i].credentials| && Live(identities[i].credentials[j], now)
                             && identities[i].credentials[j].role == SeniorReviewer
  {
    var id := identities[i];
    assert forall c :: Current(c, now) && !c.revoked <==> Live(c, now);
    assert id.gaiaId in Reviewers(identities, now) <==> Counts(id) && HoldsSeat(id, now);
    assert id.gaiaId in Seniors(identities, now) <==> Counts(id) && HoldsSeniorSeat(id, now);
  }

  // ----- A failed query

  /** Nobody who holds a current credential is given another. */
  predicate NobodyTwice(identities: seq<Identity>, now: Time, minted: seq<Minted>) {
    forall i :: 0 <= i < |identities| && HasCurrent(identities[i], now) ==> identities[i].gaiaId !in Recipients(minted)
  }

  /** Every holder whose turn comes while seats are left is asked for successfully, or cannot be minted. */
  predicate HoldersAreRead(identities: seq<Identity>, now: Time, failing: set<string>) {
    var order := StablySorted(Candidates(identities));
    forall i :: (0 <= i < |order| && HasCurrent(order[i], now)
                 && SeatLeft(order, i, now, failing, Reviewers(identities, now), ReviewerSeats(|Users(identities)|)))
                ==> order[i].rechecked || order[i].gaiaId in failing
  }

  lemma UnreadIsMinted(identities: seq<Identity>, order: seq<Identity>, i: nat, now: Time, failing: set<string>,
                       reviewers: set<string>, seats: int, minted: seq<Minted>)
    requires i < |order| && order[i] in identities && HasCurrent(order[i], now)
    requires MintedDown(order, now, failing, reviewers, seats, minted) && NobodyTwice(identities, now, minted)
    requires SeatLeft(order, i, now, failing, reviewers, seats)
    ensures order[i].rechecked || order[i].gaiaId in failing
  {
  }

  lemma MintedIsUnread(order: seq<Identity>, id: Identity, now: Time, failing: set<string>, reviewers: set<string>,
                       seats: int, minted: seq<Minted>)
    requires id in order && HasCurrent(id, now) && id.gaiaId in Recipients(minted)
    requires MintedDown(order, now, failing, reviewers, seats, minted)
    ensures exists i :: 0 <= i < |order| && order[i] == id && SeatLeft(order, i, now, failing, reviewers, seats)
                        && !id.rechecked && id.gaiaId !in failing
  {
    var i :| 0 <= i < |order| && order[i] == id;
  }

  lemma RecipientIsCandidate(identities: seq<Identity>, order: seq<Identity>, now: Time, minted: seq<Minted>, i: nat)
    requires UniqueIds(identities) && GoesToCandidates(identities, now, minted)
    requires forall x :: x in order <==> x in identities && Candidate(x)
    requires i < |identities| && identities[i].gaiaId in Recipients(minted)
    ensures identities[i] in order
  {
    var m :| 0 <= m < |minted| && minted[m].gaiaId == identities[i].gaiaId;
    assert Deserved(minted[m], identities, now);
  }

  /** A holder is given another credential exactly when asking once more fails while a seat is left. */
  lemma NobodyTwiceExactly(identities: seq<Identity>, now: Time, failing: set<string>, minted: seq<Minted>)
    requires UniqueIds(identities) && GoesToCandidates(identities, now, minted)
             && MintedExactly(identities, now, failing, minted)
    ensures NobodyTwice(identities, now, minted) <==> HoldersAreRead(identities, now, failing)
  {
    OrderIsRight(identities);
    var order := StablySorted(Candidates(identities));
    var reviewers, seats := Reviewers(identities, now), ReviewerSeats(|Users(identities)|);
    if NobodyTwice(identities, now, minted) {
      forall i | 0 <= i < |order| && HasCurrent(order[i], now) && SeatLeft(order, i, now, failing, reviewers, seats)
        ensures order[i].rechecked || order[i].gaiaId in failing
      {
        assert order[i] in order;
        UnreadIsMinted(identities, order, i, now, failing, reviewers, seats, minted);
      }
    } else {
      var i :| 0 <= i < |identities| && HasCurrent(identities[i], now) && identities[i].gaiaId in Recipients(minted);
      RecipientIsCandidate(identities, order, now, minted, i);
      MintedIsUnread(order, identities[i], now, failing, reviewers, seats, minted);
    }
  }

  /** A node of one user whose only candidate cannot be looked up either time. */
  lemma UnreadHolderIsMintedAgain(id: Identity, now: Time, failing: set<string>, minted: seq<Minted>)
    requires Candidate(id) && id.active && HasCurrent(id, now) && !id.counted && !id.rechecked && id.gaiaId !in failing
    requires MintedExactly([id], now, failing, minted)
    ensures !NobodyTwice([id], now, minted)
  {
    var ids := [id];
    assert ids[..0] == [];
    assert StablySorted(Candidates(ids)) == [id];
    assert Users(ids) == {id.user};
    assert Reviewers(ids, now) + MintableIds(ids, 0, now, failing) == {};
    assert SeatLeft(ids, 0, now, failing, Reviewers(ids, now), ReviewerSeats(1));
  }

  // ----- How many

  lemma {:induction false} DistinctAreCounted(minted: seq<Minted>)
    requires Distinct(minted)
    ensures |Recipients(minted)| == |minted|
  {
    if minted == [] {
      assert Recipients(minted) == {};
    } else {
      var front, last := minted[..|minted| - 1], minted[|minted| - 1];
      assert minted == front + [last];
      DistinctAreCounted(front);
      RecipientsOneMore(front, last);
      assert last.gaiaId !in Recipients(front);
    }
  }

  /** No recipient held a seat before. */
  lemma RecipientsAreNotSeated(identities: seq<Identity>, now: Time, minted: seq<Minted>)
    requires NobodyTwice(identities, now, minted)
    ensures Recipients(minted) !! Reviewers(identities, now) && SeniorRecipients(minted) !! Seniors(identities, now)
  {
    assert SeniorRecipients(minted) <= Recipients(minted);
  }

  lemma DisjointAddUp(a: set<string>, b: set<string>)
    requires a !! b
    ensures |a + b| == |a| + |b|
  {
  }

  /** Where nobody is minted twice, no more credentials are minted than there are free seats, likewise for seniors. */
  lemma MintedWithinFreeSeats(identities: seq<Identity>, now: Time, minted: seq<Minted>)
    requires GoesToCandidates(identities, now, minted) && WithinSeats(identities, now, minted)
    requires NobodyTwice(identities, now, minted)
    ensures var seats := ReviewerSeats(|Users(identities)|);
            && |minted| <= Larger(0, seats - |Reviewers(identities, now)|)
            && |SeniorRecipients(minted)| <= Larger(0, SeniorSeats(seats) - |Seniors(identities, now)|)
  {
    DistinctAreCounted(minted);
    RecipientsAreNotSeated(identities, now, minted);
    DisjointAddUp(Reviewers(identities, now), Recipients(minted));
    DisjointAddUp(Seniors(identities, now), SeniorRecipients(minted));
  }

  /** Three users, so two seats: one held, by a candidate who cannot be looked up again, and another candidate. */
  predicate OneSeatFree(x: Identity, y: Identity, z: Identity, now: Time, failing: set<string>) {
    && UniqueIds([x, y, z]) && x.active && y.active && z.active && |{x.user, y.user, z.user}| == 3
    && Candidate(x) && x.counted && HoldsSeat(x, now) && !x.rechecked && x.gaiaId !in failing
    && Candidate(y) && y.credentials == [] && y.gaiaId !in failing && RanksAbove(x, y)
    && !InGoodStanding(z)
  }

  lemma RankedAsListed(x: Identity, y: Identity, z: Identity, now: Time, failing: set<string>)
    requires OneSeatFree(x, y, z, now, failing)
    ensures StablySorted(Candidates([x, y, z])) == [x, y]
  {
    var all := [x, y, z];
    assert all[..2] == [x, y] && [x, y][..1] == [x] && [x][..0] == [];
    assert Candidates([x]) == [x] && Candidates([x, y]) == [x, y] && Candidates(all) == [x, y];
    assert StablySorted([x]) == [x];
  }

  lemma OneIsSeated(x: Identity, y: Identity, z: Identity, now: Time, failing: set<string>)
    requires OneSeatFree(x, y, z, now, failing)
    ensures Reviewers([x, y, z], now) == {x.gaiaId} && |Users([x, y, z])| == 3
  {
    var all := [x, y, z];
    assert all[0] == x && all[1] == y && all[2] == z;
    assert Users(all) == {x.user, y.user, z.user};
    assert Reviewers(all, now) == {x.gaiaId};
  }

  lemma {:induction false} RecipientsAtMost(minted: seq<Minted>)
    ensures |Recipients(minted)| <= |minted|
  {
    if minted == [] {
      assert Recipients(minted) == {};
    } else {
      var front, last := minted[..|minted| - 1], minted[|minted| - 1];
      assert minted == front + [last];
      RecipientsAtMost(front);
      RecipientsOneMore(front, last);
    }
  }

  /** Two credentials are minted then, for one free seat. */
  lemma MoreMintedThanFree(x: Identity, y: Identity, z: Identity, now: Time, failing: set<string>, minted: seq<Minted>)
    requires OneSeatFree(x, y, z, now, failing) && MintedExactly([x, y, z], now, failing, minted)
    ensures |minted| > ReviewerSeats(|Users([x, y, z])|) - |Reviewers([x, y, z], now)|
  {
    RankedAsListed(x, y, z, now, failing);
    OneIsSeated(x, y, z, now, failing);
    var order, seated := [x, y], {x.gaiaId};
    assert order[0] == x && order[1] == y;
    assert seated + MintableIds(order, 0, now, failing) == {x.gaiaId};
    assert seated + MintableIds(order, 1, now, failing) == {x.gaiaId};
    assert SeatLeft(order, 0, now, failing, seated, 2) && SeatLeft(order, 1, now, failing, seated, 2);
    assert {order[0].gaiaId, order[1].gaiaId} <= Recipients(minted);
    RecipientsAtMost(minted);
  }
}
