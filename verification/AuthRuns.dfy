/**
 Every run of logins, concurrent refreshes, logouts, password changes, pairings and
 key revocations over the shared tables; one step is one statement or transaction.
 */
module AuthRuns {
  import opened Wrappers
  import opened AuthStore

  const REFRESH_TTL: Time := 30 * 24 * 3600

  /** A request between two statements; it may be dropped there, as when its client goes away. */
  datatype Handler =
    | LoginCreated(user: Id, session: Id)
    | Rotating(user: Id, raw: RawToken, next: RawToken)
    | Revoking(user: Id, session: Id)
    | Minting(user: Id, session: Id)

  /** The claims of an access token. */
  datatype Access = Access(user: Id, session: Id, notBefore: Time, expires: Time)

  datatype History = History(
    secrets: set<nat>,         // refresh secrets drawn so far
    exchanged: seq<RawToken>,  // refresh tokens exchanged successfully, in order
    refused: set<Id>,          // sessions revoked because a refresh was refused
    consumed: seq<Id>          // pairings consumed, in order
  )

  /** `owners` says which user each identity belongs to. */
  datatype State = State(now: Time, tables: Tables, owners: map<Id, Id>, handlers: map<nat, Handler>, past: History)

  function Init(now: Time, owners: map<Id, Id>): State {
    State(now, Tables(map[], map[], map[]), owners, map[], History({}, [], {}, []))
  }

  datatype Step =
    | Tick(seconds: Time)
    | CreateSession(h: nat, id: Id, user: Id)
    | SetRefresh(h: nat, secret: nat)
    | Present(h: nat, raw: RawToken, secret: nat)
    | Rotate(h: nat)
    | Revoke(h: nat)
    | RotateError(h: nat)
    | Mint(h: nat)
    | Abandon(h: nat)
    | Logout(user: Id, session: Id)
    | ChangePassword(user: Id, keep: Id)
    | StartPairing(id: Id, user: Id, material: Material, sign: string, expires: Time)
    | ApprovePairing(id: Id)
    | ConsumePairing(id: Id, session: Id, key: Id)
    | RevokeKey(user: Id, key: Id)

  /** `RefreshSession` goes past its first check: the session is live and its refresh unexpired. */
  predicate Refreshable(sessions: map<Id, Session>, id: Id, now: Time) {
    && id in sessions && !sessions[id].revoked
    && sessions[id].refreshExpires.Some? && now <= sessions[id].refreshExpires.value
  }

  /** `ValidateTokenWithSession` on the claims of a token whose signature holds. */
  predicate AccessAccepted(s: State, claims: Access) {
    && claims.notBefore <= s.now < claims.expires
    && claims.session in s.tables.sessions && !s.tables.sessions[claims.session].revoked
    && s.tables.sessions[claims.session].user == claims.user
  }

  predicate Enabled(s: State, step: Step) {
    match step
    case Tick(seconds) => seconds > 0
    case CreateSession(h, id, user) => h !in s.handlers && id != NIL && id !in s.tables.sessions
    case SetRefresh(h, secret) => h in s.handlers && s.handlers[h].LoginCreated? && secret !in s.past.secrets
    case Present(h, raw, secret) =>
      h !in s.handlers && Refreshable(s.tables.sessions, raw.session, s.now) && secret !in s.past.secrets
    case Rotate(h) => h in s.handlers && s.handlers[h].Rotating?
    case Revoke(h) => h in s.handlers && s.handlers[h].Revoking?
    case RotateError(h) => h in s.handlers && s.handlers[h].Rotating?
    case Mint(h) => h in s.handlers && s.handlers[h].Minting?
    case Abandon(h) => h in s.handlers
    case Logout(user, session) => true
    case ChangePassword(user, keep) => true
    case StartPairing(id, user, material, _, _) =>
      id != NIL && id !in s.tables.pairings && material.identity in s.owners && s.owners[material.identity] == user
    case ApprovePairing(id) =>
      id in s.tables.pairings && s.tables.pairings[id].status.Pending? && s.tables.pairings[id].expires > s.now
    case ConsumePairing(id, session, key) =>
      Consumable(s.tables, id, session, s.now) && key != NIL
        && KeyIdFits(s.tables.keys, key, s.tables.pairings[id].material)
    case RevokeKey(user, key) =>
      key in s.tables.keys && s.tables.keys[key].user == user && s.tables.keys[key].active
  }

  function WithSessions(s: State, sessions: map<Id, Session>): State {
    s.(tables := s.tables.(sessions := sessions))
  }

  function Apply(s: State, step: Step): State
    requires Enabled(s, step)
  {
    var sessions := s.tables.sessions;
    match step
    case Tick(seconds) => s.(now := s.now + seconds)
    case CreateSession(h, id, user) =>
      WithSessions(s, sessions[id := Session(user, false, NoDigest, None, NIL)])
      .(handlers := s.handlers[h := LoginCreated(user, id)])
    case SetRefresh(h, secret) =>
      var LoginCreated(user, id) := s.handlers[h];
      var past := s.past.(secrets := s.past.secrets + {secret});
      if id in sessions && !sessions[id].revoked then
        WithSessions(s, sessions[id := sessions[id].(digest := Sha(RawToken(id, secret, "")),
                                                    refreshExpires := Some(s.now + REFRESH_TTL))])
        .(handlers := s.handlers[h := Minting(user, id)], past := past)
      else s.(handlers := s.handlers - {h}, past := past)
    case Present(h, raw, secret) =>
      var session := sessions[raw.session];
      if session.digest == Sha(raw) then
        s.(handlers := s.handlers[h := Rotating(session.user, raw, RawToken(raw.session, secret, ""))],
           past := s.past.(secrets := s.past.secrets + {secret}))
      else s.(handlers := s.handlers[h := Revoking(session.user, raw.session)])
    case Rotate(h) =>
      var Rotating(user, raw, next) := s.handlers[h];
      if RotateMatches(sessions, raw.session, Sha(raw), s.now) then
        WithSessions(s, RotateSessions(sessions, raw.session, Sha(raw), Sha(next), s.now + REFRESH_TTL, s.now))
        .(handlers := s.handlers[h := Minting(user, raw.session)],
          past := s.past.(exchanged := s.past.exchanged + [raw]))
      else s.(handlers := s.handlers[h := Revoking(user, raw.session)])
    case Revoke(h) =>
      var Revoking(user, id) := s.handlers[h];
      WithSessions(s, RevokeOne(sessions, user, id))
      .(handlers := s.handlers - {h}, past := s.past.(refused := s.past.refused + {id}))
    case RotateError(h) => s.(handlers := s.handlers[h := Revoking(s.handlers[h].user, s.handlers[h].raw.session)])
    case Mint(h) => s.(handlers := s.handlers - {h})
    case Abandon(h) => s.(handlers := s.handlers - {h})
    case Logout(user, session) => WithSessions(s, RevokeOne(sessions, user, session))
    case ChangePassword(user, keep) => WithSessions(s, RevokeAllBut(sessions, user, keep))
    case StartPairing(id, user, material, sign, expires) =>
      s.(tables := s.tables.(pairings := s.tables.pairings[id := Pairing(user, material, sign, Pending, expires)]))
    case ApprovePairing(id) =>
      s.(tables := s.tables.(pairings := s.tables.pairings[id := s.tables.pairings[id].(status := Approved)]))
    case ConsumePairing(id, session, key) =>
      s.(tables := ConsumeTables(s.tables, id, session, key), past := s.past.(consumed := s.past.consumed + [id]))
    case RevokeKey(user, key) =>
      s.(tables := s.tables.(keys := s.tables.keys[key := s.tables.keys[key].(active := false)],
                             sessions := RevokeOfKey(sessions, user, key)))
  }

  predicate Allowed(s: State, steps: seq<Step>)
    decreases |steps|
  {
    steps == [] || (Enabled(s, steps[0]) && Allowed(Apply(s, steps[0]), steps[1..]))
  }

  function Run(s: State, steps: seq<Step>): State
    requires Allowed(s, steps)
    decreases |steps|
  {
    if steps == [] then s else Run(Apply(s, steps[0]), steps[1..])
  }

  // ----- Sessions only ever move towards revoked

  /** Nothing about the row but its user, and once revoked, revoked for good. */
  predicate Succeeds(before: map<Id, Session>, after: map<Id, Session>) {
    forall id :: id in before ==>
      id in after && after[id].user == before[id].user && (before[id].revoked ==> after[id].revoked)
  }

  lemma StepSucceeds(s: State, step: Step)
    requires Enabled(s, step)
    ensures Succeeds(s.tables.sessions, Apply(s, step).tables.sessions)
  {
  }

  lemma {:induction false} RunSucceeds(s: State, steps: seq<Step>)
    requires Allowed(s, steps)
    ensures Succeeds(s.tables.sessions, Run(s, steps).tables.sessions)
    decreases |steps|
  {
    if steps != [] {
      StepSucceeds(s, steps[0]);
      RunSucceeds(Apply(s, steps[0]), steps[1..]);
    }
  }

  // ----- Refresh rotation

  predicate NoRepeats<T(==)>(xs: seq<T>) {
    forall i, j :: 0 <= i < j < |xs| ==> xs[i] != xs[j]
  }

  /** The token in force is unspent, and belongs to its own session. */
  predicate DigestsUnspent(s: State) {
    forall id :: id in s.tables.sessions && s.tables.sessions[id].digest.Sha? ==>
      var raw := s.tables.sessions[id].digest.raw;
      raw.session == id && raw.blanks == "" && raw.secret in s.past.secrets && raw !in s.past.exchanged
  }

  /** The token a rotation is about to install was never in force. */
  predicate NextUnused(s: State) {
    && (forall h :: h in s.handlers && s.handlers[h].Rotating? ==>
          var next := s.handlers[h].next;
          next.session == s.handlers[h].raw.session && next.blanks == "" && next.secret in s.past.secrets
          && next !in s.past.exchanged)
    && (forall h, id :: h in s.handlers && s.handlers[h].Rotating? && id in s.tables.sessions ==>
          s.tables.sessions[id].digest != Sha(s.handlers[h].next))
    && (forall h, g ::
          (&& h in s.handlers && g in s.handlers && h != g
           && s.handlers[h].Rotating? && s.handlers[g].Rotating?) ==>
            s.handlers[h].next.secret != s.handlers[g].next.secret)
    && (forall h, g :: h in s.handlers && g in s.handlers && s.handlers[h].Rotating? && s.handlers[g].Rotating? ==>
          s.handlers[h].raw != s.handlers[g].next)
  }

  predicate HandlersOwn(s: State) {
    && (forall h :: h in s.handlers && !s.handlers[h].Rotating? ==>
          s.handlers[h].session in s.tables.sessions
            && s.tables.sessions[s.handlers[h].session].user == s.handlers[h].user)
    && (forall h :: h in s.handlers && s.handlers[h].Rotating? ==>
          s.handlers[h].raw.session in s.tables.sessions
          && s.tables.sessions[s.handlers[h].raw.session].user == s.handlers[h].user)
    && (forall i :: 0 <= i < |s.past.exchanged| ==> s.past.exchanged[i].secret in s.past.secrets)
    && (forall h :: h in s.handlers && s.handlers[h].Rotating? ==> s.handlers[h].raw.secret in s.past.secrets)
  }

  predicate RefusedRevoked(s: State) {
    forall id :: id in s.past.refused ==> id in s.tables.sessions && s.tables.sessions[id].revoked
  }

  predicate RefreshInv(s: State) {
    DigestsUnspent(s) && NextUnused(s) && HandlersOwn(s) && RefusedRevoked(s) && NoRepeats(s.past.exchanged)
  }

  /** Digests are kept or erased, never installed. */
  predicate Shrinks(before: map<Id, Session>, after: map<Id, Session>) {
    && Succeeds(before, after)
    && forall id :: id in after && after[id].digest.Sha? ==> id in before && before[id].digest == after[id].digest
  }

  predicate InstallsNothing(step: Step) {
    !step.CreateSession? && !step.SetRefresh? && !step.Present? && !step.Rotate? && !step.RotateError? && !step.Revoke?
  }

  lemma ShrinkKeepsRefresh(s: State, t: State)
    requires RefreshInv(s) && Shrinks(s.tables.sessions, t.tables.sessions)
    requires forall h :: h in t.handlers ==> h in s.handlers && t.handlers[h] == s.handlers[h]
    requires t.past.secrets == s.past.secrets && t.past.exchanged == s.past.exchanged
             && t.past.refused == s.past.refused
    ensures RefreshInv(t)
  {
  }

  lemma QuietStepShrinks(s: State, step: Step)
    requires Enabled(s, step) && InstallsNothing(step)
    ensures Shrinks(s.tables.sessions, Apply(s, step).tables.sessions)
  {
  }

  lemma QuietStepKeepsRefresh(s: State, step: Step)
    requires RefreshInv(s) && Enabled(s, step) && InstallsNothing(step)
    ensures RefreshInv(Apply(s, step))
  {
    QuietStepShrinks(s, step);
    ShrinkKeepsRefresh(s, Apply(s, step));
  }

  lemma CreateKeepsRefresh(s: State, step: Step)
    requires RefreshInv(s) && step.CreateSession? && Enabled(s, step)
    ensures RefreshInv(Apply(s, step))
  {
  }

  lemma SetRefreshKeepsDigests(s: State, step: Step)
    requires DigestsUnspent(s) && NextUnused(s) && HandlersOwn(s) && step.SetRefresh? && Enabled(s, step)
    ensures DigestsUnspent(Apply(s, step))
  {
  }

  lemma SetRefreshKeepsNext(s: State, step: Step)
    requires DigestsUnspent(s) && NextUnused(s) && HandlersOwn(s) && step.SetRefresh? && Enabled(s, step)
    ensures NextUnused(Apply(s, step))
  {
  }

  lemma SetRefreshKeepsHandlers(s: State, step: Step)
    requires HandlersOwn(s) && RefusedRevoked(s) && step.SetRefresh? && Enabled(s, step)
    ensures HandlersOwn(Apply(s, step)) && RefusedRevoked(Apply(s, step))
  {
  }

  lemma PresentKeepsDigests(s: State, step: Step)
    requires DigestsUnspent(s) && NextUnused(s) && HandlersOwn(s) && step.Present? && Enabled(s, step)
    ensures DigestsUnspent(Apply(s, step))
  {
  }

  lemma PresentKeepsNext(s: State, step: Step)
    requires DigestsUnspent(s) && NextUnused(s) && HandlersOwn(s) && step.Present? && Enabled(s, step)
    ensures NextUnused(Apply(s, step))
  {
  }

  lemma PresentKeepsHandlers(s: State, step: Step)
    requires DigestsUnspent(s) && HandlersOwn(s) && RefusedRevoked(s) && step.Present? && Enabled(s, step)
    ensures HandlersOwn(Apply(s, step)) && RefusedRevoked(Apply(s, step))
  {
  }

  /** The exchanged token was in force, the installed one never was. */
  lemma RotateKeepsDigests(s: State, step: Step)
    requires DigestsUnspent(s) && NextUnused(s) && NoRepeats(s.past.exchanged) && step.Rotate? && Enabled(s, step)
    ensures DigestsUnspent(Apply(s, step)) && NoRepeats(Apply(s, step).past.exchanged)
  {
  }

  lemma RotateKeepsNext(s: State, step: Step)
    requires DigestsUnspent(s) && NextUnused(s) && step.Rotate? && Enabled(s, step)
    ensures NextUnused(Apply(s, step))
  {
  }

  lemma RotateKeepsHandlers(s: State, step: Step)
    requires HandlersOwn(s) && RefusedRevoked(s) && step.Rotate? && Enabled(s, step)
    ensures HandlersOwn(Apply(s, step)) && RefusedRevoked(Apply(s, step))
  {
  }

  lemma RotateErrorKeepsRefresh(s: State, step: Step)
    requires RefreshInv(s) && step.RotateError? && Enabled(s, step)
    ensures RefreshInv(Apply(s, step))
  {
  }

  lemma RevokeKeepsRefresh(s: State, step: Step)
    requires RefreshInv(s) && step.Revoke? && Enabled(s, step)
    ensures RefreshInv(Apply(s, step))
  {
    var t := Apply(s, step);
    assert Shrinks(s.tables.sessions, t.tables.sessions);
    ShrinkKeepsRefresh(s, t.(past := s.past));
  }

  lemma StepKeepsRefresh(s: State, step: Step)
    requires RefreshInv(s) && Enabled(s, step)
    ensures RefreshInv(Apply(s, step))
  {
    match step
    case CreateSession(_, _, _) => CreateKeepsRefresh(s, step);
    case SetRefresh(_, _) =>
      SetRefreshKeepsDigests(s, step);
      SetRefreshKeepsNext(s, step);
      SetRefreshKeepsHandlers(s, step);
    case Present(_, _, _) => PresentKeepsDigests(s, step); PresentKeepsNext(s, step); PresentKeepsHandlers(s, step);
    case Rotate(_) => RotateKeepsDigests(s, step); RotateKeepsNext(s, step); RotateKeepsHandlers(s, step);
    case RotateError(_) => RotateErrorKeepsRefresh(s, step);
    case Revoke(_) => RevokeKeepsRefresh(s, step);
    case _ => QuietStepKeepsRefresh(s, step);
  }

  lemma {:induction false} RunKeepsRefresh(s: State, steps: seq<Step>)
    requires RefreshInv(s) && Allowed(s, steps)
    ensures RefreshInv(Run(s, steps))
    decreases |steps|
  {
    if steps != [] {
      StepKeepsRefresh(s, steps[0]);
      RunKeepsRefresh(Apply(s, steps[0]), steps[1..]);
    }
  }

  /** Under every interleaving, each refresh token is exchanged successfully at most once. */
  lemma ExchangedAtMostOnce(start: Time, owners: map<Id, Id>, steps: seq<Step>)
    requires Allowed(Init(start, owners), steps)
    ensures NoRepeats(Run(Init(start, owners), steps).past.exchanged)
  {
    RunKeepsRefresh(Init(start, owners), steps);
  }

  /** A superseded token presented to a live unexpired session is on its way to revoke it. */
  lemma SupersededTokenIsRefused(s: State, h: nat, raw: RawToken, secret: nat)
    requires RefreshInv(s) && Enabled(s, Present(h, raw, secret)) && raw in s.past.exchanged
    ensures Refusing(Apply(s, Present(h, raw, secret)), h, raw.session)
  {
  }

  /** So is the token in force itself, when white space around it survives to the hash. */
  lemma PaddedTokenIsRefused(s: State, h: nat, raw: RawToken, secret: nat)
    requires RefreshInv(s) && Enabled(s, Present(h, raw, secret)) && raw.blanks != ""
    ensures Refusing(Apply(s, Present(h, raw, secret)), h, raw.session)
  {
  }

  /** A request is about to revoke a session of its user. */
  predicate Refusing(s: State, h: nat, id: Id) {
    && h in s.handlers && s.handlers[h].Revoking? && s.handlers[h].session == id
    && id in s.tables.sessions && s.tables.sessions[id].user == s.handlers[h].user
  }

  /** Undisturbed, the token in force is exchanged exactly when its expiry is still ahead. */
  lemma CurrentTokenIsExchanged(s: State, h: nat, raw: RawToken, secret: nat)
    requires RefreshInv(s) && Enabled(s, Present(h, raw, secret)) && s.tables.sessions[raw.session].digest == Sha(raw)
    ensures Enabled(Apply(s, Present(h, raw, secret)), Rotate(h))
    ensures var t := Apply(Apply(s, Present(h, raw, secret)), Rotate(h));
      if s.now < s.tables.sessions[raw.session].refreshExpires.value
      then t.past.exchanged == s.past.exchanged + [raw] && t.handlers[h].Minting?
           && t.tables.sessions[raw.session].digest == Sha(RawToken(raw.session, secret, ""))
      else t.past.exchanged == s.past.exchanged && t.handlers[h].Revoking?
  {
  }

  /** The tokens exchanged since then belong to other sessions. */
  predicate NoneExchangedSince(before: seq<RawToken>, after: seq<RawToken>, session: Id) {
    before <= after && forall i :: |before| <= i < |after| ==> after[i].session != session
  }

  lemma StepExchangesNoRevoked(s: State, step: Step, id: Id)
    requires Enabled(s, step) && id in s.tables.sessions && s.tables.sessions[id].revoked
    ensures NoneExchangedSince(s.past.exchanged, Apply(s, step).past.exchanged, id)
  {
  }

  lemma {:induction false} RunExchangesNoRevoked(s: State, steps: seq<Step>, id: Id)
    requires Allowed(s, steps) && id in s.tables.sessions && s.tables.sessions[id].revoked
    ensures NoneExchangedSince(s.past.exchanged, Run(s, steps).past.exchanged, id)
    decreases |steps|
  {
    if steps != [] {
      StepSucceeds(s, steps[0]);
      StepExchangesNoRevoked(s, steps[0], id);
      RunExchangesNoRevoked(Apply(s, steps[0]), steps[1..], id);
    }
  }

  /** From `s` to `t` nothing came of the session: revoked, nothing exchanged, no access token accepted. */
  ghost predicate DeadSince(s: State, t: State, id: Id) {
    && id in t.tables.sessions && t.tables.sessions[id].revoked && !Refreshable(t.tables.sessions, id, t.now)
    && NoneExchangedSince(s.past.exchanged, t.past.exchanged, id)
    && forall claims: Access :: claims.session == id ==> !AccessAccepted(t, claims)
  }

  /** Revocation is final: whatever runs afterwards, nothing comes of the session. */
  lemma RevokedForever(s: State, steps: seq<Step>, id: Id)
    requires id in s.tables.sessions && s.tables.sessions[id].revoked && Allowed(s, steps)
    ensures DeadSince(s, Run(s, steps), id)
  {
    RunSucceeds(s, steps);
    RunExchangesNoRevoked(s, steps, id);
  }

  /** So is every session a refused refresh has revoked. */
  lemma RefusedForever(s: State, steps: seq<Step>, id: Id)
    requires RefreshInv(s) && id in s.past.refused && Allowed(s, steps)
    ensures DeadSince(s, Run(s, steps), id)
  {
    RevokedForever(s, steps, id);
  }

  // ----- A refusal carried out, and one that is lost

  predicate MovesHandler(step: Step, h: nat) {
    && (step.CreateSession? || step.SetRefresh? || step.Present? || step.Rotate? || step.RotateError? || step.Revoke?
        || step.Mint? || step.Abandon?)
    && step.h == h
  }

  lemma OthersLeaveRefusing(s: State, step: Step, h: nat, id: Id)
    requires Enabled(s, step) && Refusing(s, h, id) && !MovesHandler(step, h)
    ensures Refusing(Apply(s, step), h, id)
  {
    StepSucceeds(s, step);
  }

  lemma {:induction false} StaysRefusing(s: State, steps: seq<Step>, h: nat, id: Id)
    requires Allowed(s, steps) && Refusing(s, h, id) && forall i :: 0 <= i < |steps| ==> !MovesHandler(steps[i], h)
    ensures Refusing(Run(s, steps), h, id)
    decreases |steps|
  {
    if steps != [] {
      OthersLeaveRefusing(s, steps[0], h, id);
      StaysRefusing(Apply(s, steps[0]), steps[1..], h, id);
    }
  }

  lemma {:induction false} RunInTwo(s: State, first: seq<Step>, second: seq<Step>)
    requires Allowed(s, first + second)
    ensures Allowed(s, first) && Allowed(Run(s, first), second) && Run(s, first + second) == Run(Run(s, first), second)
    decreases |first|
  {
    if first == [] {
      assert first + second == second;
    } else {
      assert (first + second)[1..] == first[1..] + second;
      RunInTwo(Apply(s, first[0]), first[1..], second);
    }
  }

  /** Whatever others do meanwhile and afterwards, a request that gets to revoke ends its session for good. */
  lemma RefusalRevokes(s: State, h: nat, id: Id, meanwhile: seq<Step>, after: seq<Step>)
    requires Refusing(s, h, id) && Allowed(s, meanwhile + ([Revoke(h)] + after))
    requires forall i :: 0 <= i < |meanwhile| ==> !MovesHandler(meanwhile[i], h)
    ensures Allowed(s, meanwhile)
    ensures DeadSince(Run(s, meanwhile), Run(s, meanwhile + ([Revoke(h)] + after)), id)
  {
    RunInTwo(s, meanwhile, [Revoke(h)] + after);
    StaysRefusing(s, meanwhile, h, id);
    var m := Run(s, meanwhile);
    assert ([Revoke(h)] + after)[1..] == after;
    var r := Apply(m, Revoke(h));
    RevokedForever(r, after, id);
    assert r.past.exchanged == m.past.exchanged;
  }

  /** A superseded token presented to a live unexpired session: once its request revokes, the session is
      dead from then on in every run. */
  lemma SupersededTokenRevokes(s: State, h: nat, raw: RawToken, secret: nat, meanwhile: seq<Step>, after: seq<Step>)
    requires RefreshInv(s) && Enabled(s, Present(h, raw, secret)) && raw in s.past.exchanged
    requires Allowed(Apply(s, Present(h, raw, secret)), meanwhile + ([Revoke(h)] + after))
    requires forall i :: 0 <= i < |meanwhile| ==> !MovesHandler(meanwhile[i], h)
    ensures var s1 := Apply(s, Present(h, raw, secret));
            Allowed(s1, meanwhile) && DeadSince(Run(s1, meanwhile), Run(s1, meanwhile + ([Revoke(h)] + after)),
                                                raw.session)
  {
    SupersededTokenIsRefused(s, h, raw, secret);
    RefusalRevokes(Apply(s, Present(h, raw, secret)), h, raw.session, meanwhile, after);
  }

  /** So does a token with white space around it, the one in force included. */
  lemma PaddedTokenRevokes(s: State, h: nat, raw: RawToken, secret: nat, meanwhile: seq<Step>, after: seq<Step>)
    requires RefreshInv(s) && Enabled(s, Present(h, raw, secret)) && raw.blanks != ""
    requires Allowed(Apply(s, Present(h, raw, secret)), meanwhile + ([Revoke(h)] + after))
    requires forall i :: 0 <= i < |meanwhile| ==> !MovesHandler(meanwhile[i], h)
    ensures var s1 := Apply(s, Present(h, raw, secret));
            Allowed(s1, meanwhile) && DeadSince(Run(s1, meanwhile), Run(s1, meanwhile + ([Revoke(h)] + after)),
                                                raw.session)
  {
    PaddedTokenIsRefused(s, h, raw, secret);
    RefusalRevokes(Apply(s, Present(h, raw, secret)), h, raw.session, meanwhile, after);
  }

  /** Nobody but this request revokes the session, and the request does nothing but revoke or go away. */
  ghost predicate OnlyThisRevokes(s: State, steps: seq<Step>, h: nat, id: Id)
    requires Allowed(s, steps)
    decreases |steps|
  {
    steps == [] ||
    (&& (steps[0] == Revoke(h) || (Spares(s, Apply(s, steps[0]), id)
                                   && (MovesHandler(steps[0], h) ==> steps[0] == Abandon(h))))
     && OnlyThisRevokes(Apply(s, steps[0]), steps[1..], h, id))
  }

  predicate Live(s: State, id: Id) { id in s.tables.sessions && !s.tables.sessions[id].revoked }

  predicate Spares(s: State, t: State, id: Id) { Live(s, id) ==> Live(t, id) }

  lemma {:induction false} GoneStaysGone(s: State, steps: seq<Step>, h: nat, id: Id)
    requires Allowed(s, steps) && OnlyThisRevokes(s, steps, h, id) && h !in s.handlers && Live(s, id)
    ensures Live(Run(s, steps), id)
    decreases |steps|
  {
    if steps != [] {
      var t := Apply(s, steps[0]);
      assert !MovesHandler(steps[0], h) ==> h !in t.handlers;
      GoneStaysGone(t, steps[1..], h, id);
    }
  }

  /** A handler that is gone is not moved again, whoever revokes. */
  lemma {:induction false} GoneIsNotDropped(s: State, steps: seq<Step>, h: nat, id: Id)
    requires Allowed(s, steps) && OnlyThisRevokes(s, steps, h, id) && h !in s.handlers
    ensures Abandon(h) !in steps
    decreases |steps|
  {
    if steps != [] {
      var t := Apply(s, steps[0]);
      assert !MovesHandler(steps[0], h) ==> h !in t.handlers;
      GoneIsNotDropped(t, steps[1..], h, id);
      assert steps == [steps[0]] + steps[1..];
    }
  }

  /** Left to that request alone, once the request has ended the session is revoked exactly if the request was
      not dropped. */
  lemma {:induction false} RevokedExactlyIfNotDropped(s: State, steps: seq<Step>, h: nat, id: Id)
    requires Allowed(s, steps) && Refusing(s, h, id) && Live(s, id) && OnlyThisRevokes(s, steps, h, id)
    requires h !in Run(s, steps).handlers
    ensures !Live(Run(s, steps), id) <==> Abandon(h) !in steps
    decreases |steps|
  {
    var t := Apply(s, steps[0]);
    assert steps == [steps[0]] + steps[1..];
    if steps[0] == Revoke(h) {
      RunSucceeds(t, steps[1..]);
      GoneIsNotDropped(t, steps[1..], h, id);
    } else if steps[0] == Abandon(h) {
      GoneStaysGone(t, steps[1..], h, id);
    } else {
      OthersLeaveRefusing(s, steps[0], h, id);
      RevokedExactlyIfNotDropped(t, steps[1..], h, id);
    }
  }

  lemma DroppedIsUndone(s: State, h: nat, raw: RawToken, secret: nat)
    requires RefreshInv(s) && Enabled(s, Present(h, raw, secret)) && raw in s.past.exchanged
    ensures Apply(Apply(s, Present(h, raw, secret)), Abandon(h)) == s
  {
  }

  lemma StepFirst(s: State, step: Step, rest: seq<Step>)
    requires Enabled(s, step) && Allowed(Apply(s, step), rest)
    ensures Allowed(s, [step] + rest) && Run(s, [step] + rest) == Run(Apply(s, step), rest)
  {
    assert ([step] + rest)[1..] == rest;
  }

  /** If it is dropped, the session lives on and the token in force is exchanged as if nothing had happened. */
  lemma LostRefusal(s: State, h: nat, raw: RawToken, secret: nat, g: nat, current: RawToken, next: nat)
    requires RefreshInv(s) && Enabled(s, Present(h, raw, secret)) && raw in s.past.exchanged
    requires g !in s.handlers && next !in s.past.secrets
    requires current.session == raw.session && s.tables.sessions[raw.session].digest == Sha(current)
    requires s.now < s.tables.sessions[raw.session].refreshExpires.value
    ensures var steps := [Present(h, raw, secret)]
            + ([Abandon(h)] + ([Present(g, current, next)] + ([Rotate(g)] + [])));
            Allowed(s, steps) && Live(Run(s, steps), raw.session)
              && Run(s, steps).past.exchanged == s.past.exchanged + [current]
  {
    var s1, s3 := Apply(s, Present(h, raw, secret)), Apply(s, Present(g, current, next));
    DroppedIsUndone(s, h, raw, secret);
    CurrentTokenIsExchanged(s, g, current, next);
    StepFirst(s3, Rotate(g), []);
    StepFirst(s, Present(g, current, next), [Rotate(g)] + []);
    StepFirst(s1, Abandon(h), [Present(g, current, next)] + ([Rotate(g)] + []));
    StepFirst(s, Present(h, raw, secret), [Abandon(h)] + ([Present(g, current, next)] + ([Rotate(g)] + [])));
  }

  // ----- That can happen

  ghost predicate Reachable(s: State) {
    exists steps :: Allowed(Init(0, map[]), steps) && Run(Init(0, map[]), steps) == s
  }

  lemma ReachFurther(s: State, step: Step)
    requires Reachable(s) && Enabled(s, step)
    ensures Reachable(Apply(s, step))
  {
    var steps :| Allowed(Init(0, map[]), steps) && Run(Init(0, map[]), steps) == s;
    RunOneMore(Init(0, map[]), steps, step);
  }

  lemma {:induction false} RunOneMore(s: State, steps: seq<Step>, step: Step)
    requires Allowed(s, steps) && Enabled(Run(s, steps), step)
    ensures Allowed(s, steps + [step]) && Run(s, steps + [step]) == Apply(Run(s, steps), step)
    decreases |steps|
  {
    if steps == [] {
      assert [] + [step] == [step] && [step][1..] == [];
      assert Run(Apply(s, step), []) == Apply(s, step);
    } else {
      RunOneMore(Apply(s, steps[0]), steps[1..], step);
      assert (steps + [step])[1..] == steps[1..] + [step];
    }
  }

  /** One user's session, with a refresh token in force and the ones exchanged before. */
  function Refreshed(user: Id, id: Id, secret: nat, secrets: set<nat>, exchanged: seq<RawToken>): State {
    State(0, Tables(map[id := Session(user, false, Sha(RawToken(id, secret, "")), Some(REFRESH_TTL), NIL)], map[],
                    map[]),
          map[], map[], History(secrets, exchanged, {}, []))
  }

  lemma LoggedIn(user: Id, id: Id)
    requires id != NIL
    ensures Reachable(Refreshed(user, id, 0, {0}, []))
  {
    var s0 := Init(0, map[]);
    assert Allowed(s0, []) && Run(s0, []) == s0;
    ReachFurther(s0, CreateSession(0, id, user));
    var s1 := Apply(s0, CreateSession(0, id, user));
    ReachFurther(s1, SetRefresh(0, 0));
    var s2 := Apply(s1, SetRefresh(0, 0));
    ReachFurther(s2, Mint(0));
    assert Apply(s2, Mint(0)) == Refreshed(user, id, 0, {0}, []);
  }

  lemma RefreshedOnce(user: Id, id: Id)
    requires id != NIL
    ensures Reachable(Refreshed(user, id, 1, {0, 1}, [RawToken(id, 0, "")]))
  {
    var s0, raw := Refreshed(user, id, 0, {0}, []), RawToken(id, 0, "");
    LoggedIn(user, id);
    ReachFurther(s0, Present(0, raw, 1));
    var s1 := Apply(s0, Present(0, raw, 1));
    ReachFurther(s1, Rotate(0));
    var s2 := Apply(s1, Rotate(0));
    ReachFurther(s2, Mint(0));
    assert Apply(s2, Mint(0)) == Refreshed(user, id, 1, {0, 1}, [raw]);
  }

  /** A reachable state from which the replay of a spent token is lost and the session refreshes again. */
  lemma RefusalCanBeLost(user: Id, id: Id)
    requires id != NIL
    ensures var s, raw, current := Refreshed(user, id, 1, {0, 1}, [RawToken(id, 0, "")]), RawToken(id, 0, ""),
            RawToken(id, 1, "");
            var steps := [Present(0, raw, 2)] + ([Abandon(0)] + ([Present(1, current, 2)] + ([Rotate(1)] + [])));
            && Reachable(s) && raw in s.past.exchanged
            && Allowed(s, steps) && Live(Run(s, steps), id) && Run(s, steps).past.exchanged == [raw, current]
  {
    RefreshedOnce(user, id);
    var s, raw, current := Refreshed(user, id, 1, {0, 1}, [RawToken(id, 0, "")]), RawToken(id, 0, ""),
      RawToken(id, 1, "");
    LostRefusal(s, 0, raw, 2, 1, current, 2);
    assert [raw] + [current] == [raw, current];
  }

  // ----- Pairings, keys and the sessions bound to them

  predicate SessionsBound(sessions: map<Id, Session>, keys: map<Id, Key>) {
    forall id :: id in sessions && !sessions[id].revoked && sessions[id].deviceKey != NIL ==>
      && sessions[id].deviceKey in keys
      && keys[sessions[id].deviceKey].active
      && keys[sessions[id].deviceKey].user == sessions[id].user
  }

  predicate KeysOwned(keys: map<Id, Key>, owners: map<Id, Id>) {
    && NIL !in keys
    && (forall k :: k in keys ==>
          keys[k].material.identity in owners && owners[keys[k].material.identity] == keys[k].user)
    && (forall k, j :: k in keys && j in keys && k != j ==> keys[k].material != keys[j].material)
  }

  predicate PairingsOwned(pairings: map<Id, Pairing>, owners: map<Id, Id>) {
    forall p :: p in pairings ==>
      pairings[p].material.identity in owners && owners[pairings[p].material.identity] == pairings[p].user
  }

  predicate ConsumedOnce(pairings: map<Id, Pairing>, consumed: seq<Id>) {
    && NoRepeats(consumed)
    && forall i :: 0 <= i < |consumed| ==> consumed[i] in pairings && pairings[consumed[i]].status.Consumed?
  }

  predicate DeviceInv(s: State) {
    && SessionsBound(s.tables.sessions, s.tables.keys)
    && KeysOwned(s.tables.keys, s.owners)
    && PairingsOwned(s.tables.pairings, s.owners)
    && ConsumedOnce(s.tables.pairings, s.past.consumed)
  }

  lemma ConsumeKeepsDevices(s: State, step: Step)
    requires DeviceInv(s) && step.ConsumePairing? && Enabled(s, step)
    ensures DeviceInv(Apply(s, step))
  {
  }

  lemma RevokeKeyKeepsDevices(s: State, step: Step)
    requires DeviceInv(s) && step.RevokeKey? && Enabled(s, step)
    ensures DeviceInv(Apply(s, step))
  {
  }

  lemma PairingStepKeepsDevices(s: State, step: Step)
    requires DeviceInv(s) && (step.StartPairing? || step.ApprovePairing?) && Enabled(s, step)
    ensures DeviceInv(Apply(s, step))
  {
  }

  lemma SessionStepKeepsDevices(s: State, step: Step)
    requires DeviceInv(s) && Enabled(s, step)
    requires !step.ConsumePairing? && !step.RevokeKey? && !step.StartPairing? && !step.ApprovePairing?
    ensures DeviceInv(Apply(s, step))
  {
    var t := Apply(s, step);
    assert t.tables.keys == s.tables.keys && t.tables.pairings == s.tables.pairings
           && t.past.consumed == s.past.consumed;
  }

  lemma StepKeepsDevices(s: State, step: Step)
    requires DeviceInv(s) && Enabled(s, step)
    ensures DeviceInv(Apply(s, step))
  {
    match step
    case ConsumePairing(_, _, _) => ConsumeKeepsDevices(s, step);
    case RevokeKey(_, _) => RevokeKeyKeepsDevices(s, step);
    case StartPairing(_, _, _, _, _) => PairingStepKeepsDevices(s, step);
    case ApprovePairing(_) => PairingStepKeepsDevices(s, step);
    case _ => SessionStepKeepsDevices(s, step);
  }

  lemma {:induction false} RunKeepsDevices(s: State, steps: seq<Step>)
    requires DeviceInv(s) && Allowed(s, steps)
    ensures DeviceInv(Run(s, steps))
    decreases |steps|
  {
    if steps != [] {
      StepKeepsDevices(s, steps[0]);
      RunKeepsDevices(Apply(s, steps[0]), steps[1..]);
    }
  }

  /**
   Over every run: an unrevoked session bound to a device key points to an active
   key of its own user, and each pairing is consumed at most once.
   */
  lemma LiveSessionsHaveLiveKeys(start: Time, owners: map<Id, Id>, steps: seq<Step>)
    requires Allowed(Init(start, owners), steps)
    ensures var s := Run(Init(start, owners), steps);
      SessionsBound(s.tables.sessions, s.tables.keys) && NoRepeats(s.past.consumed)
  {
    RunKeepsDevices(Init(start, owners), steps);
  }

  /** Pairing known material again takes the id it had, and brings no session back. */
  lemma RepairingReusesTheKey(s: State, step: Step, k: Id)
    requires DeviceInv(s) && step.ConsumePairing? && Enabled(s, step)
    requires Carries(s.tables.keys, k, s.tables.pairings[step.id].material)
    ensures step.key == k
    ensures var t := Apply(s, step);
      && t.tables.keys.Keys == s.tables.keys.Keys && t.tables.keys[k].active
      && t.tables.keys[k].user == s.tables.keys[k].user == s.tables.pairings[step.id].user
      && forall id :: id in s.tables.sessions && s.tables.sessions[id].revoked ==>
          t.tables.sessions[id] == s.tables.sessions[id]
  {
  }
}
