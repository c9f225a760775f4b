/**
 What pairing a device, revoking its key, changing a password and refreshing come to over a
 run: which sessions end, which live on, and for how long.
 */
module DeviceRuns {
  import opened Wrappers
  import opened AuthStore
  import opened AuthRuns

  // ----- Binding a session to a key

  /** The consumed pairing makes its key active with its own signing key, binds the session it was consumed by,
      and touches nothing else. */
  lemma ConsumeBinds(s: State, id: Id, session: Id, key: Id)
    requires Enabled(s, ConsumePairing(id, session, key))
    ensures var p, t := s.tables.pairings[id], Apply(s, ConsumePairing(id, session, key)).tables;
            && t.pairings == s.tables.pairings[id := p.(status := Consumed)]
            && t.keys.Keys == s.tables.keys.Keys + {key} && (forall k :: k in s.tables.keys && k != key ==>
                                                               t.keys[k] == s.tables.keys[k])
            && t.keys[key].active && t.keys[key].sign == p.sign && t.keys[key].material == p.material
            && t.keys[key].user == (if key in s.tables.keys then s.tables.keys[key].user else p.user)
            && t.sessions.Keys == s.tables.sessions.Keys
            && (forall i :: i in t.sessions ==>
                  t.sessions[i] == if i == session && session != NIL then s.tables.sessions[i].(deviceKey := key)
                                   else s.tables.sessions[i])
            && (session != NIL ==> session in t.sessions && t.sessions[session].deviceKey == key)
  {
  }

  predicate BoundTo(s: State, session: Id, key: Id) {
    session in s.tables.sessions && s.tables.sessions[session].deviceKey == key
  }

  predicate Binds(step: Step, session: Id) { step.ConsumePairing? && step.session == session }

  lemma StepStaysBound(s: State, step: Step, session: Id, key: Id)
    requires BoundTo(s, session, key) && Enabled(s, step) && !Binds(step, session)
    ensures BoundTo(Apply(s, step), session, key)
  {
  }

  lemma {:induction false} StaysBound(s: State, steps: seq<Step>, session: Id, key: Id)
    requires BoundTo(s, session, key) && Allowed(s, steps) && forall i :: 0 <= i < |steps| ==> !Binds(steps[i], session)
    ensures BoundTo(Run(s, steps), session, key)
    decreases |steps|
  {
    if steps != [] {
      StepStaysBound(s, steps[0], session, key);
      StaysBound(Apply(s, steps[0]), steps[1..], session, key);
    }
  }

  /** Revoking a key revokes exactly the sessions that were, and the user's that are bound to it. */
  lemma RevokeKeyRevokesExactly(s: State, user: Id, key: Id, id: Id)
    requires Enabled(s, RevokeKey(user, key)) && id in s.tables.sessions
    ensures var t := Apply(s, RevokeKey(user, key)).tables;
            && id in t.sessions
            && (t.sessions[id].revoked <==>
                  s.tables.sessions[id].revoked || (s.tables.sessions[id].user == user && BoundTo(s, id, key)))
            && (!t.sessions[id].revoked ==> t.sessions[id] == s.tables.sessions[id])
            && !t.keys[key].active
  {
  }

  /**
   A session bound to a key by pairing dies with the key: over every run in which it is not bound anew, once the key
   is revoked nothing comes of the session again.
   */
  lemma BoundSessionDiesWithItsKey(s: State, id: Id, session: Id, key: Id, meanwhile: seq<Step>, user: Id,
                                   after: seq<Step>)
    requires DeviceInv(s) && session != NIL && Enabled(s, ConsumePairing(id, session, key))
    requires var s1 := Apply(s, ConsumePairing(id, session, key));
             && Allowed(s1, meanwhile) && (forall i :: 0 <= i < |meanwhile| ==> !Binds(meanwhile[i], session))
             && Enabled(Run(s1, meanwhile), RevokeKey(user, key))
             && Allowed(Apply(Run(s1, meanwhile), RevokeKey(user, key)), after)
    ensures var s2 := Apply(Run(Apply(s, ConsumePairing(id, session, key)), meanwhile), RevokeKey(user, key));
            DeadSince(s2, Run(s2, after), session)
  {
    var s1 := Apply(s, ConsumePairing(id, session, key));
    var r := Run(s1, meanwhile);
    ConsumeBinds(s, id, session, key);
    StepKeepsDevices(s, ConsumePairing(id, session, key));
    RunKeepsDevices(s1, meanwhile);
    StaysBound(s1, meanwhile, session, key);
    assert key != NIL;
    RevokeKeyRevokesExactly(r, user, key, session);
    assert !r.tables.sessions[session].revoked ==> r.tables.keys[key].user == r.tables.sessions[session].user;
    RevokedForever(Apply(r, RevokeKey(user, key)), after, session);
  }

  // ----- Where a pairing comes from

  predicate Starts(step: Step, id: Id, p: Pairing) {
    step.StartPairing? && step.id == id && step.user == p.user && step.material == p.material && step.sign == p.sign
    && step.expires == p.expires
  }

  /** Nothing but its status changes. */
  lemma StepKeepsPairing(s: State, step: Step, id: Id)
    requires Enabled(s, step) && id in s.tables.pairings
    ensures var t := Apply(s, step).tables;
            && id in t.pairings && t.pairings[id] == s.tables.pairings[id].(status := t.pairings[id].status)
            && (t.pairings[id].status.Approved? ==>
                  s.tables.pairings[id].status.Approved? || step == ApprovePairing(id))
  {
  }

  lemma {:induction false} PairingStays(s: State, steps: seq<Step>, id: Id)
    requires Allowed(s, steps) && id in s.tables.pairings
    ensures var t := Run(s, steps).tables;
            && id in t.pairings && t.pairings[id] == s.tables.pairings[id].(status := t.pairings[id].status)
            && (t.pairings[id].status.Approved? ==>
                  s.tables.pairings[id].status.Approved? || ApprovePairing(id) in steps)
    decreases |steps|
  {
    if steps != [] {
      StepKeepsPairing(s, steps[0], id);
      PairingStays(Apply(s, steps[0]), steps[1..], id);
      assert steps == [steps[0]] + steps[1..];
    }
  }

  lemma {:induction false} PairingWasStarted(s: State, steps: seq<Step>, id: Id)
    requires Allowed(s, steps) && id !in s.tables.pairings && id in Run(s, steps).tables.pairings
    ensures exists i :: 0 <= i < |steps| && Starts(steps[i], id, Run(s, steps).tables.pairings[id])
    ensures Run(s, steps).tables.pairings[id].status.Approved? ==> ApprovePairing(id) in steps
    decreases |steps|
  {
    var t := Apply(s, steps[0]);
    assert steps == [steps[0]] + steps[1..];
    if id in t.tables.pairings {
      PairingStays(t, steps[1..], id);
      assert Starts(steps[0], id, Run(s, steps).tables.pairings[id]);
    } else {
      PairingWasStarted(t, steps[1..], id);
      var i :| 0 <= i < |steps[1..]| && Starts(steps[1..][i], id, Run(s, steps).tables.pairings[id]);
      assert steps[i + 1] == steps[1..][i];
    }
  }

  /** Over every run: a pairing is consumed only if it was started and approved, strictly before the expiry it was
      started with, and by a live session of the user who started it. */
  lemma ConsumedWasApproved(start: Time, owners: map<Id, Id>, steps: seq<Step>, id: Id, session: Id, key: Id)
    requires Allowed(Init(start, owners), steps)
    requires Enabled(Run(Init(start, owners), steps), ConsumePairing(id, session, key))
    ensures var s := Run(Init(start, owners), steps);
            && ApprovePairing(id) in steps
            && (exists i :: 0 <= i < |steps| && Starts(steps[i], id, s.tables.pairings[id]))
            && s.now < s.tables.pairings[id].expires
            && (session != NIL ==> Live(s, session) && s.tables.sessions[session].user == s.tables.pairings[id].user)
  {
    PairingWasStarted(Init(start, owners), steps, id);
  }

  // ----- Changing a password

  /** Revoked are exactly the sessions that were and all of the user's but the kept one; the others are as before. */
  lemma ChangePasswordRevokesExactly(s: State, user: Id, keep: Id, id: Id)
    requires id in s.tables.sessions
    ensures var t := Apply(s, ChangePassword(user, keep)).tables;
            && id in t.sessions
            && (t.sessions[id].revoked <==>
                  s.tables.sessions[id].revoked
                  || (s.tables.sessions[id].user == user && (keep == NIL || id != keep)))
            && (!t.sessions[id].revoked ==> t.sessions[id] == s.tables.sessions[id])
  {
  }

  /** And logging out ends exactly the one session, if it is the user's. */
  lemma LogoutRevokesExactly(s: State, user: Id, session: Id, id: Id)
    requires id in s.tables.sessions
    ensures var t := Apply(s, Logout(user, session)).tables;
            && id in t.sessions
            && (t.sessions[id].revoked <==>
                  s.tables.sessions[id].revoked || (id == session && s.tables.sessions[id].user == user))
            && (!t.sessions[id].revoked ==> t.sessions[id] == s.tables.sessions[id])
  {
  }

  /** After a change every other session of the user is dead for good, whatever follows. */
  lemma ChangedPasswordEndsOthers(s: State, user: Id, keep: Id, after: seq<Step>, id: Id)
    requires id in s.tables.sessions && s.tables.sessions[id].user == user && (keep == NIL || id != keep)
    requires Allowed(Apply(s, ChangePassword(user, keep)), after)
    ensures var s1 := Apply(s, ChangePassword(user, keep)); DeadSince(s1, Run(s1, after), id)
  {
    ChangePasswordRevokesExactly(s, user, keep, id);
    RevokedForever(Apply(s, ChangePassword(user, keep)), after, id);
  }

  // ----- How long a refresh token lasts

  /** The row of a session is as it was. */
  predicate SameRow(s: State, t: State, id: Id) {
    id in s.tables.sessions && id in t.tables.sessions && t.tables.sessions[id] == s.tables.sessions[id]
  }

  /** A live session's token, issued at a time with thirty days to go. */
  predicate Issued(s: State, raw: RawToken, at: Time) {
    && Live(s, raw.session) && s.tables.sessions[raw.session].digest == Sha(raw)
    && s.tables.sessions[raw.session].refreshExpires == Some(at + 2592000)
  }

  /** An exchange spends the token presented and issues the next one, for thirty days from then. */
  lemma ExchangeIssues(s: State, h: nat)
    requires Enabled(s, Rotate(h)) && RefreshInv(s)
    ensures var Rotating(user, raw, next) := s.handlers[h];
            var t := Apply(s, Rotate(h));
            t.past.exchanged != s.past.exchanged ==>
              t.past.exchanged == s.past.exchanged + [raw] && next.session == raw.session && Issued(t, next, s.now)
  {
  }

  /** So does a login. */
  lemma LoginIssues(s: State, h: nat, secret: nat)
    requires Enabled(s, SetRefresh(h, secret)) && Live(s, s.handlers[h].session)
    ensures Issued(Apply(s, SetRefresh(h, secret)), RawToken(s.handlers[h].session, secret, ""), s.now)
  {
  }

  /**
   While the row of its session is as it was, an issued token is taken up exactly for thirty days and exchanged exactly
   if the rotation comes before they are over.
   */
  lemma TokenLastsThirtyDays(s: State, raw: RawToken, at: Time, t: State, h: nat, secret: nat, u: State)
    requires Issued(s, raw, at) && SameRow(s, t, raw.session) && h !in t.handlers && secret !in t.past.secrets
    ensures Enabled(t, Present(h, raw, secret)) <==> t.now <= at + 2592000
    ensures Enabled(t, Present(h, raw, secret)) ==>
              var p := Apply(t, Present(h, raw, secret));
              && p.handlers[h] == Rotating(t.tables.sessions[raw.session].user, raw, RawToken(raw.session, secret, ""))
              && (SameRow(s, u, raw.session) && h in u.handlers && u.handlers[h] == p.handlers[h] ==>
                    && Enabled(u, Rotate(h))
                    && (Apply(u, Rotate(h)).past.exchanged == u.past.exchanged + [raw] <==> u.now < at + 2592000))
  {
  }

  // ----- Access tokens

  lemma {:induction false} TimeGoesOn(s: State, steps: seq<Step>)
    requires Allowed(s, steps)
    ensures s.now <= Run(s, steps).now
    decreases |steps|
  {
    if steps != [] {
      TimeGoesOn(Apply(s, steps[0]), steps[1..]);
    }
  }

  /**
   An access token for a session that exists is accepted after a run only if its time has come and is not over, it
   names the session's user, and the session was live before. So one that has expired, names another user or is for
   a revoked session is not accepted in any run from then on.
   */
  lemma AcceptedOnlyWhile(s: State, steps: seq<Step>, claims: Access)
    requires Allowed(s, steps) && claims.session in s.tables.sessions
    ensures AccessAccepted(Run(s, steps), claims) ==>
              && Live(s, claims.session) && s.tables.sessions[claims.session].user == claims.user
              && s.now < claims.expires && claims.notBefore <= Run(s, steps).now
  {
    RunSucceeds(s, steps);
    TimeGoesOn(s, steps);
  }

  /** And while the session lives, one for its user is accepted all its time. */
  lemma AcceptedAllTheWhile(s: State, claims: Access)
    requires Live(s, claims.session) && s.tables.sessions[claims.session].user == claims.user
    requires claims.notBefore <= s.now < claims.expires
    ensures AccessAccepted(s, claims)
  {
  }
}
