/**
 The signing keys of the auth service: the key table and its statements, the loading and rotating of
 keys by a service replica, and the replica's cache of the published key set, which is reloaded only
 when the newest `updated_at` of the table has moved. Key material is shown by its kid alone.
 */
module Jwks {
  import opened Wrappers

  type Kid = nat

  datatype KeyType = Access | Refresh
  datatype KeyStatus = Active | Inactive | Expired
  /** `decodes` says whether the stored public key can be read back. */
  datatype SigningKey = SigningKey(
    kid: Kid, keyType: KeyType, status: KeyStatus, updated: int, expires: Option<int>, decodes: bool)

  type Rows = seq<SigningKey>

  const ZERO_TIME := 0
  const DAY := 24 * 60 * 60 * 1000
  const KEY_TYPES := [Access, Refresh]

  /** ---------- The table ---------- */

  predicate ActiveOf(k: SigningKey, kt: KeyType) { k.status.Active? && k.keyType == kt }

  predicate IsPublished(k: SigningKey) { k.keyType.Access? && !k.status.Expired? }

  /** UPDATE ... WHERE status = 'ACTIVE' AND key_type = kt; `updated_at` is left alone. */
  function Retired(rows: Rows, kt: KeyType, to: KeyStatus): Rows {
    seq(|rows|, i requires 0 <= i < |rows| => if ActiveOf(rows[i], kt) then rows[i].(status := to) else rows[i])
  }

  function Rotated(rows: Rows, k: SigningKey): Rows { Retired(rows, k.keyType, Inactive) + [k] }

  /** MAX(updated_at), with the zero time for no rows. */
  function Version(rows: Rows): (v: int)
    ensures ZERO_TIME <= v
    ensures forall i :: 0 <= i < |rows| ==> rows[i].updated <= v
    ensures v == ZERO_TIME || exists i :: 0 <= i < |rows| && rows[i].updated == v
  {
    if rows == [] then ZERO_TIME else
    var last := rows[|rows| - 1].updated;
    var before := Version(rows[..|rows| - 1]);
    assert forall i :: 0 <= i < |rows| - 1 ==> rows[i] == rows[..|rows| - 1][i];
    if before <= last then last else before
  }

  /** WHERE status IN ('ACTIVE', 'INACTIVE') */
  function Loadable(rows: Rows): Rows {
    if rows == [] then [] else (if rows[0].status.Expired? then [] else [rows[0]]) + Loadable(rows[1..])
  }

  function FirstActive(rows: Rows, kt: KeyType): Option<SigningKey> {
    if rows == [] then None else if ActiveOf(rows[0], kt) then Some(rows[0]) else FirstActive(rows[1..], kt)
  }

  function Published(rows: Rows): set<Kid> {
    set i | 0 <= i < |rows| && IsPublished(rows[i]) :: rows[i].kid
  }

  predicate AllDecode(rows: Rows) { forall i :: 0 <= i < |rows| && IsPublished(rows[i]) ==> rows[i].decodes }

  class JwksRepo {
    var rows: Rows

    constructor ()
      ensures rows == []
    {
      rows := [];
    }

    method Load() returns (keys: Rows)
      ensures keys == Loadable(rows)
    {
      keys := [];
      for i := 0 to |rows|
        invariant Loadable(rows) == keys + Loadable(rows[i..])
      {
        if rows[i].status != Expired {
          keys := keys + [rows[i]];
        }
      }
    }

    method Retire(kt: KeyType, to: KeyStatus)
      modifies this
      ensures rows == Retired(old(rows), kt, to)
    {
      for i := 0 to |rows|
        invariant |rows| == |old(rows)|
        invariant forall j :: 0 <= j < i ==> rows[j] == Retired(old(rows), kt, to)[j]
        invariant forall j :: i <= j < |rows| ==> rows[j] == old(rows)[j]
      {
        if rows[i].status == Active && rows[i].keyType == kt {
          rows := rows[i := rows[i].(status := to)];
        }
      }
    }

    /** One transaction: a failed insert rolls the update back. */
    method Rotate(k: SigningKey, fails: bool) returns (ok: bool)
      modifies this
      ensures ok == !fails
      ensures rows == if ok then Rotated(old(rows), k) else old(rows)
    {
      var saved := rows;
      Retire(k.keyType, Inactive);
      if fails {
        rows := saved;
        return false;
      }
      rows := rows + [k];
      return true;
    }
  }

  /** The set served to verifiers, built key by key; one published key that does not decode fails it all. */
  method ToJWKSet(keys: Rows) returns (published: Option<set<Kid>>)
    ensures published == if AllDecode(keys) then Some(Published(keys)) else None
  {
    var jwkSet: set<Kid> := {};
    for i := 0 to |keys|
      invariant jwkSet == Published(keys[..i]) && AllDecode(keys[..i])
    {
      assert keys[..i + 1] == keys[..i] + [keys[i]];
      PublishedAppend(keys[..i], keys[i]);
      if keys[i].keyType == Access && keys[i].status != Expired {
        if !keys[i].decodes {
          return None;
        }
        jwkSet := jwkSet + {keys[i].kid};
      }
    }
    assert keys[..|keys|] == keys;
    return Some(jwkSet);
  }

  lemma PublishedAppend(rows: Rows, k: SigningKey)
    ensures Published(rows + [k]) == Published(rows) + if IsPublished(k) then {k.kid} else {}
  {
    var all := rows + [k];
    assert forall i :: 0 <= i < |rows| ==> all[i] == rows[i];
    assert all[|rows|] == k;
    forall kid | kid in Published(rows)
      ensures kid in Published(all)
    {
      var i :| 0 <= i < |rows| && IsPublished(rows[i]) && rows[i].kid == kid;
      assert all[i].kid == kid;
    }
  }

  /** ---------- A replica loads its cache ---------- */

  datatype Cache = Cache(published: set<Kid>, version: int)

  const EMPTY_CACHE := Cache({}, ZERO_TIME)

  /** The database calls of one load, each made at most once. */
  datatype Call =
    | GetVersion
    | FindActive(keyType: KeyType)
    | Seed(keyType: KeyType)
    | GetVersionAgain
    | LoadKeys
    | Expire(keyType: KeyType)
    | Rotate(keyType: KeyType)
    | LoadAgain

  datatype Mint = Mint(kid: Kid, at: int)

  /** What a load meets: the calls that fail, the time, and the new kid and clock reading of each rotation. */
  datatype Env = Env(fails: set<Call>, now: int, mint: map<Call, Mint>)

  function Minted(env: Env, call: Call): SigningKey
    requires call.Seed? || call.Rotate?
  {
    var m := if call in env.mint then env.mint[call] else Mint(0, 0);
    SigningKey(m.kid, call.keyType, Active, m.at, Some(m.at + DAY), true)
  }

  datatype Done = Done(rows: Rows, rotated: bool, ok: bool)

  function Seeded(rows: Rows, kinds: seq<KeyType>, env: Env): Done
    decreases |kinds|
  {
    if kinds == [] then Done(rows, false, true) else
    var kt := kinds[0];
    if FindActive(kt) in env.fails then Done(rows, false, false)
    else if FirstActive(rows, kt).Some? then Seeded(rows, kinds[1..], env)
    else if Seed(kt) in env.fails then Done(rows, false, false)
    else Seeded(Rotated(rows, Minted(env, Seed(kt))), kinds[1..], env)
  }

  predicate Due(k: SigningKey, now: int) { k.expires.Some? && k.expires.value < now }

  function RotatedIfNeeded(rows: Rows, keys: Rows, kt: KeyType, env: Env): Done {
    var active := FirstActive(keys, kt);
    var next := Minted(env, Rotate(kt));
    if active.None? then
      if Rotate(kt) in env.fails then Done(rows, true, false) else Done(Rotated(rows, next), true, true)
    else if Due(active.value, env.now) then
      if Expire(kt) in env.fails then Done(rows, false, false) else
      var left := Retired(rows, kt, Expired);
      if Rotate(kt) in env.fails then Done(left, true, false) else Done(Rotated(left, next), true, true)
    else Done(rows, false, true)
  }

  function RotatedAll(rows: Rows, rotated: bool, keys: Rows, kinds: seq<KeyType>, env: Env): Done
    decreases |kinds|
  {
    if kinds == [] then Done(rows, rotated, true) else
    var d := RotatedIfNeeded(rows, keys, kinds[0], env);
    if !d.ok then d else RotatedAll(d.rows, rotated || d.rotated, keys, kinds[1..], env)
  }

  datatype Outcome = Outcome(cache: Cache, rows: Rows, ok: bool)

  /** The reload is skipped when the version has not moved and there is a set to serve. */
  predicate Skips(c: Cache, rows: Rows) { Version(rows) <= c.version && c.published != {} }

  function Refreshed(c: Cache, rows: Rows, env: Env): Outcome {
    if Skips(c, rows) then Outcome(c, rows, true)
    else if LoadKeys in env.fails then Outcome(c, rows, false)
    else
      var d := RotatedAll(rows, false, Loadable(rows), KEY_TYPES, env);
      if !d.ok || (d.rotated && LoadAgain in env.fails) || !AllDecode(d.rows) then Outcome(c, d.rows, false)
      else Outcome(Cache(Published(d.rows), Version(rows)), d.rows, true)
  }

  /** A table that was seeded has rows, so its version, read again, is never missing. */
  function Loaded(c: Cache, rows: Rows, env: Env): Outcome {
    if GetVersion in env.fails then Outcome(c, rows, false)
    else if rows != [] then Refreshed(c, rows, env)
    else
      var s := Seeded(rows, KEY_TYPES, env);
      if !s.ok || GetVersionAgain in env.fails then Outcome(c, s.rows, false) else Refreshed(c, s.rows, env)
  }

  class JwksService {
    const repo: JwksRepo
    var jwkSet: set<Kid>
    var version: int

    ghost function CacheValue(): Cache
      reads this
    {
      Cache(jwkSet, version)
    }

    constructor (repo: JwksRepo)
      ensures this.repo == repo && CacheValue() == EMPTY_CACHE
    {
      this.repo, jwkSet, version := repo, {}, ZERO_TIME;
    }

    method EnsureKeys(env: Env) returns (ok: bool)
      modifies repo
      ensures Done(repo.rows, false, ok) == Seeded(old(repo.rows), KEY_TYPES, env)
    {
      for i := 0 to |KEY_TYPES|
        invariant Seeded(old(repo.rows), KEY_TYPES, env) == Seeded(repo.rows, KEY_TYPES[i..], env)
      {
        var kt := KEY_TYPES[i];
        if FindActive(kt) in env.fails {
          return false;
        }
        if FirstActive(repo.rows, kt) == None {
          var rotated := repo.Rotate(Minted(env, Seed(kt)), Seed(kt) in env.fails);
          if !rotated {
            return false;
          }
        }
      }
      return true;
    }

    method RotateIfNeeded(keys: Rows, kt: KeyType, env: Env) returns (rotated: bool, ok: bool)
      modifies repo
      ensures Done(repo.rows, rotated, ok) == RotatedIfNeeded(old(repo.rows), keys, kt, env)
    {
      var active := FirstActive(keys, kt);
      if active == None {
        ok := repo.Rotate(Minted(env, Rotate(kt)), Rotate(kt) in env.fails);
        return true, ok;
      }
      if active.value.expires.Some? && active.value.expires.value < env.now {
        if Expire(kt) in env.fails {
          return false, false;
        }
        repo.Retire(kt, Expired);
        ok := repo.Rotate(Minted(env, Rotate(kt)), Rotate(kt) in env.fails);
        return true, ok;
      }
      return false, true;
    }

    method LoadJWKS(env: Env) returns (ok: bool)
      modifies this, repo
      ensures Outcome(CacheValue(), repo.rows, ok) == Loaded(old(CacheValue()), old(repo.rows), env)
    {
      if GetVersion in env.fails {
        return false;
      }
      if repo.rows == [] {
        ok := EnsureKeys(env);
        if !ok || GetVersionAgain in env.fails {
          return false;
        }
      }
      var dbVersion := Version(repo.rows);
      if dbVersion <= version && jwkSet != {} {
        return true;
      }
      if LoadKeys in env.fails {
        return false;
      }
      var keys := repo.Load();
      var rotated := false;
      ghost var before := repo.rows;
      for i := 0 to |KEY_TYPES|
        invariant CacheValue() == old(CacheValue())
        invariant RotatedAll(before, false, keys, KEY_TYPES, env) ==
                  RotatedAll(repo.rows, rotated, keys, KEY_TYPES[i..], env)
      {
        var didRotate;
        didRotate, ok := RotateIfNeeded(keys, KEY_TYPES[i], env);
        if !ok {
          return false;
        }
        rotated := rotated || didRotate;
      }
      if rotated {
        if LoadAgain in env.fails {
          return false;
        }
        keys := repo.Load();
      }
      PublishedOfLoadable(repo.rows);
      NoRotationNoChange(before, keys, KEY_TYPES, env);
      var loaded := ToJWKSet(keys);
      if loaded == None {
        return false;
      }
      jwkSet := loaded.value;
      version := dbVersion;
      return true;
    }

    /** The set is what verifiers get; a failed load is their error. */
    method GetJwkSet(env: Env) returns (published: Option<set<Kid>>)
      modifies this, repo
      ensures Outcome(CacheValue(), repo.rows, published.Some?) == Loaded(old(CacheValue()), old(repo.rows), env)
      ensures published == if published.Some? then Some(jwkSet) else None
    {
      var ok := LoadJWKS(env);
      published := if ok then Some(jwkSet) else None;
    }
  }

  lemma {:induction false} PublishedOfLoadable(rows: Rows)
    ensures Published(Loadable(rows)) == Published(rows) && (AllDecode(Loadable(rows)) <==> AllDecode(rows))
    decreases |rows|
  {
    if rows != [] {
      PublishedOfLoadable(rows[1..]);
      PublishedPrepend(rows[0], rows[1..]);
      PublishedPrepend(rows[0], Loadable(rows[1..]));
      assert rows == [rows[0]] + rows[1..];
      assert rows[0].status.Expired? ==> Loadable(rows) == Loadable(rows[1..]);
    }
  }

  lemma PublishedPrepend(k: SigningKey, rows: Rows)
    ensures Published([k] + rows) == (if IsPublished(k) then {k.kid} else {}) + Published(rows)
    ensures AllDecode([k] + rows) <==> (IsPublished(k) ==> k.decodes) && AllDecode(rows)
  {
    var all := [k] + rows;
    assert all[0] == k;
    assert forall i :: 0 <= i < |rows| ==> rows[i] == all[i + 1];
    assert forall i :: 1 <= i < |all| ==> all[i] == rows[i - 1];
    forall kid | kid in Published(rows)
      ensures kid in Published(all)
    {
      var i :| 0 <= i < |rows| && IsPublished(rows[i]) && rows[i].kid == kid;
      assert all[i + 1].kid == kid;
    }
  }

  lemma {:induction false} NoRotationNoChange(rows: Rows, keys: Rows, kinds: seq<KeyType>, env: Env)
    ensures var d := RotatedAll(rows, false, keys, kinds, env); d.ok && !d.rotated ==> d.rows == rows
    decreases |kinds|
  {
    if kinds != [] && RotatedIfNeeded(rows, keys, kinds[0], env).ok {
      var d := RotatedIfNeeded(rows, keys, kinds[0], env);
      if d.rotated {
        RotatedStaysRotated(d.rows, keys, kinds[1..], env);
      } else {
        NoRotationNoChange(rows, keys, kinds[1..], env);
      }
    }
  }

  lemma {:induction false} RotatedStaysRotated(rows: Rows, keys: Rows, kinds: seq<KeyType>, env: Env)
    ensures var d := RotatedAll(rows, true, keys, kinds, env); d.ok ==> d.rotated
    decreases |kinds|
  {
    if kinds != [] {
      RotatedStaysRotated(RotatedIfNeeded(rows, keys, kinds[0], env).rows, keys, kinds[1..], env);
    }
  }
}
