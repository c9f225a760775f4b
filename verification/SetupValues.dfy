/**
 The assignments of a setup: which variables are set outright, which only when blank, and
 which are left alone. Nothing here looks inside a value.
 */
module SetupValues {
  /** The variables setup knows by name, and the others. */
  datatype Key =
    | DevMode | ServerName | BindAddress | AllowPublicBind | DbDriver | CookieSecure
    | DbPath | ServerPort | OpenRegistration
    | JwtSecret | LegacyJwtSecret | PrivateKey | MetricsToken | ShieldSecret | EpochSecret
    | Other(name: string)

  /** What is assigned, what was drawn at random, and how values are judged. */
  datatype Sheet<!V> = Sheet(
    no: V, yes: V, loopback: V, sqlite: V, name: V, port: V, path: V,
    privateKey: V, jwt: V, metrics: V, shield: V, epoch: V,
    empty: V, blank: V -> bool, long: V -> bool)

  /** A variable that is not there reads as the empty text. */
  function Get<V>(sheet: Sheet<V>, values: map<Key, V>,
                  key: Key): V { if key in values then values[key] else sheet.empty }

  function IfBlank<V>(sheet: Sheet<V>, v: V, otherwise: V): V { if sheet.blank(v) then otherwise else v }

  predicate IsFixed(key: Key) {
    key.DevMode? || key.ServerName? || key.BindAddress? || key.AllowPublicBind? || key.DbDriver? || key.CookieSecure?
  }

  /** What a variable is set to whatever it was. */
  function Fixed<V>(sheet: Sheet<V>, key: Key): V
    requires IsFixed(key)
  {
    match key
    case DevMode => sheet.no
    case ServerName => sheet.name
    case BindAddress => sheet.loopback
    case AllowPublicBind => sheet.no
    case DbDriver => sheet.sqlite
    case CookieSecure => sheet.yes
  }

  predicate IsDefaulted(key: Key) {
    || key.DbPath? || key.ServerPort? || key.OpenRegistration?
    || key.PrivateKey? || key.MetricsToken? || key.ShieldSecret? || key.EpochSecret?
  }

  /** What a blank variable is set to. */
  function Default<V>(sheet: Sheet<V>, key: Key): V
    requires IsDefaulted(key)
  {
    match key
    case DbPath => sheet.path
    case ServerPort => sheet.port
    case OpenRegistration => sheet.no
    case PrivateKey => sheet.privateKey
    case MetricsToken => sheet.metrics
    case ShieldSecret => sheet.shield
    case EpochSecret => sheet.epoch
  }

  /** A long enough legacy secret is carried over. */
  function Jwt<V>(sheet: Sheet<V>, values: map<Key, V>): V {
    var legacy := Get(sheet, values, LegacyJwtSecret);
    if !sheet.blank(Get(sheet, values, JwtSecret)) then Get(sheet, values, JwtSecret)
    else if sheet.long(legacy) && !sheet.blank(legacy) then legacy else sheet.jwt
  }

  function Left<V>(sheet: Sheet<V>, values: map<Key, V>, key: Key): V {
    if IsFixed(key) then Fixed(sheet, key)
    else if IsDefaulted(key) then IfBlank(sheet, Get(sheet, values, key), Default(sheet, key))
    else if key.JwtSecret? then Jwt(sheet, values)
    else Get(sheet, values, key)
  }

  predicate IsManaged(key: Key) { !key.Other? && !key.LegacyJwtSecret? }

  /** The variables after the assignments: every managed one, and those that were there. */
  ghost predicate Assigned<V>(sheet: Sheet<V>, values: map<Key, V>, r: map<Key, V>) {
    forall key :: AssignedAt(sheet, values, r, key)
  }

  predicate AssignedAt<V(==)>(sheet: Sheet<V>, values: map<Key, V>, r: map<Key, V>, key: Key) {
    (key in r <==> key in values || IsManaged(key)) && Get(sheet, r, key) == Left(sheet, values, key)
  }

  // ----- The steps

  predicate FixedAt<V(==)>(sheet: Sheet<V>, values: map<Key, V>, r: map<Key, V>, k: Key) {
    Get(sheet, r, k) == if IsFixed(k) then Fixed(sheet, k) else Get(sheet, values, k)
  }

  method AssignFixed<V>(sheet: Sheet<V>, values: map<Key, V>) returns (r: map<Key, V>)
    ensures forall k :: FixedAt(sheet, values, r, k)
    ensures forall k :: k in r <==> k in values || IsFixed(k)
  {
    r := values;
    r := r[DevMode := sheet.no];
    r := r[ServerName := sheet.name];
    r := r[BindAddress := sheet.loopback];
    r := r[AllowPublicBind := sheet.no];
    r := r[DbDriver := sheet.sqlite];
    r := r[CookieSecure := sheet.yes];
  }

  predicate IsSwitch(key: Key) { key.DbPath? || key.ServerPort? || key.OpenRegistration? }

  predicate SwitchedAt<V(==)>(sheet: Sheet<V>, values: map<Key, V>, r: map<Key, V>, k: Key) {
    Get(sheet, r, k) == if IsSwitch(k) then IfBlank(sheet, Get(sheet, values, k), Default(sheet, k))
      else Get(sheet, values, k)
  }

  method AssignSwitches<V>(sheet: Sheet<V>, values: map<Key, V>) returns (r: map<Key, V>)
    ensures forall k :: SwitchedAt(sheet, values, r, k)
    ensures forall k :: k in r <==> k in values || (IsSwitch(k) && sheet.blank(Get(sheet, values, k)))
  {
    r := values;
    if sheet.blank(Get(sheet, r, DbPath)) {
      r := r[DbPath := sheet.path];
    }
    if sheet.blank(Get(sheet, r, ServerPort)) {
      r := r[ServerPort := sheet.port];
    }
    if sheet.blank(Get(sheet, r, OpenRegistration)) {
      r := r[OpenRegistration := sheet.no];
    }
  }

  predicate Once(keys: seq<Key>) { forall i, j :: 0 <= i < j < |keys| ==> keys[i] != keys[j] }

  predicate IsDrawn(key: Key) { key.JwtSecret? || key.MetricsToken? || key.ShieldSecret? || key.EpochSecret? }

  function Drawn<V>(sheet: Sheet<V>, key: Key): V
    requires IsDrawn(key)
  {
    if key.JwtSecret? then sheet.jwt else Default(sheet, key)
  }

  /** The loop over the secrets: a missing one is drawn. */
  method DrawEach<V>(sheet: Sheet<V>, values: map<Key, V>, keys: seq<Key>) returns (r: map<Key, V>)
    requires Once(keys) && forall i :: 0 <= i < |keys| ==> IsDrawn(keys[i])
    ensures forall k :: Get(sheet, r, k) == if k in keys && IsDrawn(k)
            then IfBlank(sheet, Get(sheet, values, k), Drawn(sheet, k)) else Get(sheet, values, k)
    ensures forall k :: k in r <==> k in values || (k in keys && sheet.blank(Get(sheet, values, k)))
  {
    r := values;
    for i := 0 to |keys|
      invariant forall k :: Get(sheet, r, k) == if k in keys[..i] && IsDrawn(k)
                then IfBlank(sheet, Get(sheet, values, k), Drawn(sheet, k)) else Get(sheet, values, k)
      invariant forall k :: k in r <==> k in values || (k in keys[..i] && sheet.blank(Get(sheet, values, k)))
    {
      var key := keys[i];
      assert key !in keys[..i];
      assert keys[..i + 1] == keys[..i] + [key];
      if !sheet.blank(Get(sheet, r, key)) {
        continue;
      }
      r := r[key := Drawn(sheet, key)];
    }
    assert keys[..|keys|] == keys;
  }

  /** The legacy secret is carried over, a missing identity is made, then whatever is missing is drawn. */
  method FillSecrets<V>(sheet: Sheet<V>, values: map<Key, V>) returns (r: map<Key, V>)
    ensures forall k :: Get(sheet, r, k) == if k.JwtSecret? then Jwt(sheet, values)
                                            else if IsDrawn(k) || k.PrivateKey?
                                              then IfBlank(sheet, Get(sheet, values, k), Default(sheet, k))
                                            else Get(sheet, values, k)
    ensures forall k :: k in r <==> k in values || ((IsDrawn(k) || k.PrivateKey?) && sheet.blank(Get(sheet, values, k)))
  {
    r := values;
    if sheet.blank(Get(sheet, r, JwtSecret)) && sheet.long(Get(sheet, r, LegacyJwtSecret)) {
      r := r[JwtSecret := Get(sheet, r, LegacyJwtSecret)];
    }
    if sheet.blank(Get(sheet, r, PrivateKey)) {
      r := r[PrivateKey := sheet.privateKey];
    }
    var keys := [JwtSecret, MetricsToken, ShieldSecret, EpochSecret];
    assert forall k :: k in keys <==> IsDrawn(k);
    r := DrawEach(sheet, r, keys);
  }

  lemma StagesAddUp<V>(sheet: Sheet<V>, values: map<Key, V>, fixed: map<Key, V>, switched: map<Key, V>, r: map<Key,
                       V>, key: Key)
    requires sheet.blank(sheet.empty)
    requires FixedAt(sheet, values, fixed, key) && FixedAt(sheet, values, fixed, JwtSecret)
             && FixedAt(sheet, values, fixed, LegacyJwtSecret)
    requires key in fixed <==> key in values || IsFixed(key)
    requires SwitchedAt(sheet, fixed, switched, key)
    requires SwitchedAt(sheet, fixed, switched, JwtSecret) && SwitchedAt(sheet, fixed, switched, LegacyJwtSecret)
    requires key in switched <==> key in fixed || (IsSwitch(key) && sheet.blank(Get(sheet, fixed, key)))
    requires Get(sheet, r, key) == if key.JwtSecret? then Jwt(sheet, switched)
                                   else if IsDrawn(key) || key.PrivateKey?
                                     then IfBlank(sheet, Get(sheet, switched, key), Default(sheet, key))
                                   else Get(sheet, switched, key)
    requires key in r <==> key in switched || ((IsDrawn(key) || key.PrivateKey?)
                                               && sheet.blank(Get(sheet, switched, key)))
    ensures AssignedAt(sheet, values, r, key)
  {
    assert Jwt(sheet, switched) == Jwt(sheet, values);
  }

  /** All assignments together. */
  method AssignAll<V>(sheet: Sheet<V>, values: map<Key, V>) returns (r: map<Key, V>)
    requires sheet.blank(sheet.empty)
    ensures Assigned(sheet, values, r)
  {
    var fixed := AssignFixed(sheet, values);
    var switched := AssignSwitches(sheet, fixed);
    r := FillSecrets(sheet, switched);
    forall key ensures AssignedAt(sheet, values, r, key) {
      assert FixedAt(sheet, values, fixed, key) && SwitchedAt(sheet, fixed, switched, key);
      StagesAddUp(sheet, values, fixed, switched, r, key);
    }
  }

  // ----- What the assignments mean

  predicate IsSecret(key: Key) { IsDrawn(key) || key.PrivateKey? || key.LegacyJwtSecret? }

  /** No secret that is there is changed, and no variable setup does not know. */
  lemma SecretsAreKept<V>(sheet: Sheet<V>, values: map<Key, V>, r: map<Key, V>, key: Key)
    requires Assigned(sheet, values, r)
    ensures IsSecret(key) && !sheet.blank(Get(sheet, values, key)) ==> Get(sheet, r, key) == Get(sheet, values, key)
    ensures !IsManaged(key) ==> (key in r <==> key in values) && Get(sheet, r, key) == Get(sheet, values, key)
  {
    assert AssignedAt(sheet, values, r, key);
  }

  /** What setup puts in place of a blank is not blank. */
  predicate FillsBlanks<V>(sheet: Sheet<V>) {
    && sheet.blank(sheet.empty) && !sheet.blank(sheet.no) && !sheet.blank(sheet.port) && !sheet.blank(sheet.path)
    && !sheet.blank(sheet.privateKey) && !sheet.blank(sheet.jwt) && !sheet.blank(sheet.metrics)
    && !sheet.blank(sheet.shield) && !sheet.blank(sheet.epoch)
  }

  /** The same options, with other secrets drawn. */
  ghost predicate SameOptions<V(!new)>(a: Sheet<V>, b: Sheet<V>) {
    && a.no == b.no && a.yes == b.yes && a.loopback == b.loopback && a.sqlite == b.sqlite && a.name == b.name
    && a.port == b.port && a.path == b.path && a.empty == b.empty
    && (forall v :: a.blank(v) == b.blank(v)) && (forall v :: a.long(v) == b.long(v))
  }

  /** A second time nothing is assigned that is not already there, whatever path took the place of the path. */
  lemma SecondAssignsNothing<V(!new)>(a: Sheet<V>, b: Sheet<V>, values: map<Key, V>, r: map<Key, V>, path: V, key: Key)
    requires Assigned(a, values, r) && FillsBlanks(a) && SameOptions(a, b) && !a.blank(path)
    ensures Left(b, r[DbPath := path], key) == Get(a, r[DbPath := path], key)
    ensures IsManaged(key) ==> key in r
  {
    assert AssignedAt(a, values, r, key);
  }

  /** The assignments are determined by what was there. */
  lemma AssignedIsUnique<V>(sheet: Sheet<V>, values: map<Key, V>, r: map<Key, V>, s: map<Key, V>)
    requires Assigned(sheet, values, r) && Assigned(sheet, values, s)
    ensures r == s
  {
    forall key ensures (key in r <==> key in s) && (key in r ==> r[key] == s[key]) {
      assert AssignedAt(sheet, values, r, key) && AssignedAt(sheet, values, s, key);
    }
  }

  const MANAGED: set<Key> := {DevMode, ServerName, BindAddress, AllowPublicBind, DbDriver, CookieSecure,
                              DbPath, ServerPort, OpenRegistration, JwtSecret, PrivateKey, MetricsToken, ShieldSecret,
                                EpochSecret}

  function After<V>(sheet: Sheet<V>, values: map<Key, V>): map<Key, V> {
    map key | key in values.Keys + MANAGED :: Left(sheet, values, key)
  }

  lemma AfterIsAssigned<V>(sheet: Sheet<V>, values: map<Key, V>)
    ensures Assigned(sheet, values, After(sheet, values))
  {
    forall key ensures AssignedAt(sheet, values, After(sheet, values), key) {
      assert key in MANAGED <==> IsManaged(key);
    }
  }

  method MakeAll<V>(sheet: Sheet<V>, values: map<Key, V>) returns (r: map<Key, V>)
    requires sheet.blank(sheet.empty)
    ensures r == After(sheet, values)
  {
    r := AssignAll(sheet, values);
    AfterIsAssigned(sheet, values);
    AssignedIsUnique(sheet, values, r, After(sheet, values));
  }

  /** Making the assignments on what was made before, path aside, gives the same map. */
  lemma MadeTwice<V(!new)>(a: Sheet<V>, b: Sheet<V>, values: map<Key, V>, path: V)
    requires FillsBlanks(a) && SameOptions(a, b) && !a.blank(path)
    ensures After(b, After(a, values)[DbPath := path]) == After(a, values)[DbPath := path]
  {
    AfterIsAssigned(a, values);
    var r := After(a, values)[DbPath := path];
    AfterIsAssigned(b, r);
    forall key ensures (key in After(b, r) <==> key in r) && (key in r ==> After(b, r)[key] == r[key]) {
      SecondAssignsNothing(a, b, values, After(a, values), path, key);
      assert AssignedAt(b, r, After(b, r), key);
    }
  }
}
