/**
 The tables of device pairings, device keys and device sessions, and the statements
 and transactions that change them. Ids and secrets drawn at random are numbers the
 caller supplies; 0 is the nil id. SHA-256 is the injective constructor `Sha`.
 */
module AuthStore {
  import opened Wrappers

  type Id = nat

  const NIL: Id := 0

  /** A refresh token as presented; `blanks` is white space around it, which parsing drops and hashing keeps. */
  datatype RawToken = RawToken(session: Id, secret: nat, blanks: string)

  datatype Digest = NoDigest | Sha(raw: RawToken)

  datatype Session = Session(user: Id, revoked: bool, digest: Digest, refreshExpires: Option<Time>, deviceKey: Id)

  /** What makes a device key one key: a unique index of the table. */
  datatype Material = Material(identity: Id, box: string, kem: string)

  datatype Key = Key(user: Id, material: Material, sign: string, active: bool)

  datatype PairingStatus = Pending | Approved | Consumed

  datatype Pairing = Pairing(user: Id, material: Material, sign: string, status: PairingStatus, expires: Time)

  datatype Tables = Tables(sessions: map<Id, Session>, keys: map<Id, Key>, pairings: map<Id, Pairing>)

  // ----- What each statement does to the tables

  function RevokedSession(session: Session): Session { session.(revoked := true) }

  function RevokeOne(sessions: map<Id, Session>, user: Id, id: Id): map<Id, Session> {
    if id in sessions && sessions[id].user == user then sessions[id := RevokedSession(sessions[id])] else sessions
  }

  function RevokeAllBut(sessions: map<Id, Session>, user: Id, keep: Id): map<Id, Session> {
    map id | id in sessions ::
      if sessions[id].user == user && (keep == NIL || id != keep) then RevokedSession(sessions[id]) else sessions[id]
  }

  /** Revoking a key also empties the refresh columns of its live sessions. */
  function RevokeOfKey(sessions: map<Id, Session>, user: Id, key: Id): map<Id, Session> {
    map id | id in sessions ::
      if sessions[id].user == user && sessions[id].deviceKey == key && !sessions[id].revoked
      then sessions[id].(revoked := true, digest := NoDigest, refreshExpires := None) else sessions[id]
  }

  predicate RotateMatches(sessions: map<Id, Session>, id: Id, expected: Digest, now: Time) {
    && id in sessions && !sessions[id].revoked && sessions[id].digest == expected
    && sessions[id].refreshExpires.Some? && sessions[id].refreshExpires.value > now
  }

  function RotateSessions(sessions: map<Id, Session>, id: Id, expected: Digest, next: Digest, expires: Time,
                          now: Time): map<Id, Session> {
    if RotateMatches(sessions, id, expected, now)
    then sessions[id := sessions[id].(digest := next, refreshExpires := Some(expires))] else sessions
  }

  /** The key that already carries this material, if any. */
  predicate Carries(keys: map<Id, Key>, id: Id, material: Material) {
    id in keys && keys[id].material == material
  }

  /** A pairing may be consumed under the id `key`: the id of the existing key, or a new one. */
  predicate KeyIdFits(keys: map<Id, Key>, key: Id, material: Material) {
    Carries(keys, key, material)
    || (key !in keys && forall k :: k in keys ==> keys[k].material != material)
  }

  predicate Consumable(t: Tables, pairing: Id, session: Id, now: Time) {
    && pairing in t.pairings && t.pairings[pairing].status.Approved? && t.pairings[pairing].expires > now
    && (session != NIL ==>
          session in t.sessions && t.sessions[session].user == t.pairings[pairing].user && !t.sessions[session].revoked)
  }

  function ConsumeTables(t: Tables, pairing: Id, session: Id, key: Id): Tables
    requires pairing in t.pairings && (session != NIL ==> session in t.sessions)
  {
    var p := t.pairings[pairing];
    Tables(if session != NIL then t.sessions[session := t.sessions[session].(deviceKey := key)] else t.sessions,
           t.keys[key := if key in t.keys then t.keys[key].(sign := p.sign, active := true)
                         else Key(p.user, p.material, p.sign, true)],
           t.pairings[pairing := p.(status := Consumed)])
  }

  class Store {
    var passwords: map<Id, string>
    var sessions: map<Id, Session>
    var keys: map<Id, Key>
    var pairings: map<Id, Pairing>

    ghost function Contents(): Tables
      reads this
    {
      Tables(sessions, keys, pairings)
    }

    constructor()
      ensures Contents() == Tables(map[], map[], map[]) && passwords == map[]
    {
      sessions, keys, pairings, passwords := map[], map[], map[], map[];
    }

    /** `CreateDeviceSession`. */
    method CreateSession(id: Id, user: Id)
      modifies this`sessions
      ensures Contents() == old(Contents()).(sessions := old(sessions)[id := Session(user, false, NoDigest, None, NIL)])
    {
      sessions := sessions[id := Session(user, false, NoDigest, None, NIL)];
    }

    /** `SetDeviceSessionRefresh`. */
    method SetRefresh(id: Id, digest: Digest, expires: Time) returns (ok: bool)
      modifies this`sessions
      ensures ok == (id in old(sessions) && !old(sessions)[id].revoked)
      ensures Contents() == if ok
        then old(Contents()).(sessions := old(sessions)[id :=
                                      old(sessions)[id].(digest := digest, refreshExpires := Some(expires))])
        else old(Contents())
    {
      ok := id in sessions && !sessions[id].revoked;
      if ok {
        sessions := sessions[id := sessions[id].(digest := digest, refreshExpires := Some(expires))];
      }
    }

    /** `RotateDeviceSessionRefresh`: the compare-and-swap. */
    method Rotate(id: Id, expected: Digest, next: Digest, expires: Time, now: Time) returns (rotated: bool)
      modifies this`sessions
      ensures rotated == RotateMatches(old(sessions), id, expected, now)
      ensures Contents()
              == old(Contents()).(sessions := RotateSessions(old(sessions), id, expected, next, expires, now))
    {
      rotated := false;
      if id in sessions {
        var row := sessions[id];
        if !row.revoked && row.digest == expected && row.refreshExpires.Some? && row.refreshExpires.value > now {
          row := row.(digest := next);
          row := row.(refreshExpires := Some(expires));
          sessions := sessions[id := row];
          rotated := true;
        }
      }
    }

    /** `RevokeDeviceSession`: false is the error that no live session of the user matches. */
    method Revoke(user: Id, id: Id) returns (ok: bool)
      modifies this`sessions
      ensures ok == (id in old(sessions) && old(sessions)[id].user == user && !old(sessions)[id].revoked)
      ensures Contents() == old(Contents()).(sessions := RevokeOne(old(sessions), user, id))
    {
      ok := id in sessions && sessions[id].user == user && !sessions[id].revoked;
      if ok {
        sessions := sessions[id := sessions[id].(revoked := true)];
      }
    }

    /** The sessions of a user, row by row. */
    method RevokeAllExcept(user: Id, keep: Id)
      modifies this`sessions
      ensures sessions == RevokeAllBut(old(sessions), user, keep)
    {
      var pending := sessions.Keys;
      while pending != {}
        invariant pending <= sessions.Keys == old(sessions).Keys
        invariant forall id :: id in sessions ==>
                    sessions[id] == if id in pending then old(sessions)[id]
                                    else RevokeAllBut(old(sessions), user, keep)[id]
        decreases |pending|
      {
        var id :| id in pending;
        pending := pending - {id};
        if sessions[id].user == user && (keep == NIL || id != keep) && !sessions[id].revoked {
          sessions := sessions[id := sessions[id].(revoked := true)];
        }
      }
    }

    /** `UpdateUserPasswordAndRevokeSessions`: both or, for a user there is not, neither. */
    method ChangePassword(user: Id, hash: string, keep: Id) returns (ok: bool)
      modifies this`passwords, this`sessions
      ensures ok <==> user in old(passwords)
      ensures passwords == if ok then old(passwords)[user := hash] else old(passwords)
      ensures sessions == if ok then RevokeAllBut(old(sessions), user, keep) else old(sessions)
      ensures ok ==> forall id :: id in sessions && sessions[id].user == user && (keep == NIL || id != keep) ==>
                                    sessions[id].revoked
    {
      if user !in passwords {
        return false;
      }
      passwords := passwords[user := hash];
      RevokeAllExcept(user, keep);
      return true;
    }

    /** `CreateDevicePairing`. */
    method CreatePairing(id: Id, user: Id, material: Material, sign: string, expires: Time)
      modifies this`pairings
      ensures Contents()
              == old(Contents()).(pairings := old(pairings)[id := Pairing(user, material, sign, Pending, expires)])
    {
      pairings := pairings[id := Pairing(user, material, sign, Pending, expires)];
    }

    /** `ApproveDevicePairing`. */
    method ApprovePairing(id: Id, now: Time) returns (ok: bool)
      modifies this`pairings
      ensures ok == (id in old(pairings) && old(pairings)[id].status.Pending? && old(pairings)[id].expires > now)
      ensures Contents() == if ok
        then old(Contents()).(pairings := old(pairings)[id := old(pairings)[id].(status := Approved)])
        else old(Contents())
    {
      ok := id in pairings && pairings[id].status == Pending && pairings[id].expires > now;
      if ok {
        pairings := pairings[id := pairings[id].(status := Approved)];
      }
    }

    /**
     `ConsumeDevicePairing`: mark the pairing, upsert the key, bind the session; a
     session that does not match rolls everything back.
     */
    method ConsumePairing(pairing: Id, session: Id, now: Time, newId: Id) returns (key: Option<Id>)
      requires newId !in keys
      modifies this`sessions, this`keys, this`pairings
      ensures key.Some? <==> Consumable(old(Contents()), pairing, session, now)
      ensures key.None? ==> Contents() == old(Contents())
      ensures key.Some? ==>
        && KeyIdFits(old(keys), key.value, old(pairings)[pairing].material)
        && (key.value !in old(keys) ==> key.value == newId)
        && Contents() == ConsumeTables(old(Contents()), pairing, session, key.value)
    {
      if pairing !in pairings || pairings[pairing].status != Approved || pairings[pairing].expires <= now {
        return None;
      }
      var p := pairings[pairing];
      var id := FindKey(p.material);
      var row: Key;
      if id.None? {
        id := Some(newId);
        row := Key(p.user, p.material, p.sign, true);
      } else {
        row := keys[id.value].(sign := p.sign, active := true);
      }
      if session != NIL {
        if session !in sessions || sessions[session].user != p.user || sessions[session].revoked {
          return None;
        }
        sessions := sessions[session := sessions[session].(deviceKey := id.value)];
      }
      keys := keys[id.value := row];
      pairings := pairings[pairing := p.(status := Consumed)];
      return id;
    }

    /** The conflict target of the upsert: a key with the same material. */
    method FindKey(material: Material) returns (found: Option<Id>)
      ensures found.Some? ==> Carries(keys, found.value, material)
      ensures found.None? ==> forall k :: k in keys ==> keys[k].material != material
    {
      found := None;
      var unseen := keys.Keys;
      while unseen != {} && found.None?
        invariant unseen <= keys.Keys
        invariant found.Some? ==> Carries(keys, found.value, material)
        invariant found.None? ==> forall k :: k in keys && k !in unseen ==> keys[k].material != material
        decreases |unseen|
      {
        var k :| k in unseen;
        unseen := unseen - {k};
        if keys[k].material == material {
          found := Some(k);
        }
      }
    }

    /** `RevokeDeviceKey`: the key and, in the same transaction, its live sessions. */
    method RevokeKey(user: Id, key: Id) returns (ok: bool)
      modifies this`sessions, this`keys
      ensures ok == (key in old(keys) && old(keys)[key].user == user && old(keys)[key].active)
      ensures Contents() == if ok
        then old(Contents()).(keys := old(keys)[key := old(keys)[key].(active := false)],
                              sessions := RevokeOfKey(old(sessions), user, key))
        else old(Contents())
    {
      if key !in keys || keys[key].user != user || !keys[key].active {
        return false;
      }
      keys := keys[key := keys[key].(active := false)];
      sessions := map id | id in sessions ::
        if sessions[id].user == user && sessions[id].deviceKey == key && !sessions[id].revoked
        then Session(user, true, NoDigest, None, key) else sessions[id];
      return true;
    }
  }
}
