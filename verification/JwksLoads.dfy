/**
 A whole load of one replica: what its rotations make of the table, what it makes of the cache, and that it is
 a run of the single statements.
 */
module JwksLoads {
  import opened Wrappers
  import opened Jwks
  import opened JwksTheorems

  /** ---------- The rotations of a load ---------- */

  /** The order in which one load can rotate. */
  function Rank(call: Call): nat {
    match call
    case Seed(kt) => if kt.Access? then 0 else 1
    case Rotate(kt) => if kt.Access? then 2 else 3
    case _ => 4
  }

  function ReadingOf(env: Env, n: nat): int {
    Minted(env, if n == 0 then Seed(Access) else if n == 1 then Seed(Refresh)
                else if n == 2 then Rotate(Access) else Rotate(Refresh)).updated
  }

  /** The clock readings of a load's rotations go up, and those from rank `n` on are later than the table. */
  ghost predicate TimelyFrom(rows: Rows, env: Env, n: nat) {
    && ReadingOf(env, 0) < ReadingOf(env, 1) < ReadingOf(env, 2) < ReadingOf(env, 3)
    && (n < 4 ==> Version(rows) < ReadingOf(env, n))
  }

  ghost predicate TimelyEnv(rows: Rows, env: Env) { TimelyFrom(rows, env, 0) }

  /** The clock readings of a load, from rank `n` on, are timely if `inTime` asks for it. */
  ghost predicate Clocks(inTime: bool, rows: Rows, env: Env, n: nat) { inTime ==> TimelyFrom(rows, env, n) }

  lemma MintedRotation(inTime: bool, rows: Rows, env: Env, call: Call)
    requires Rank(call) < 4 && Clocks(inTime, rows, env, Rank(call))
    ensures Allowed(inTime, rows, RotateTo(Minted(env, call)))
    ensures Clocks(inTime, Rotated(rows, Minted(env, call)), env, Rank(call) + 1)
    ensures inTime ==> Version(rows) < Version(Rotated(rows, Minted(env, call)))
  {
    if inTime { VersionOfRotated(rows, Minted(env, call)); }
  }

  predicate Allowed(inTime: bool, rows: Rows, st: Statement) {
    (st.RotateTo? ==> st.key.status.Active?) && (inTime ==> Timely(rows, st))
  }

  /** Statements that lead from one table to another. */
  ghost predicate Rewrites(inTime: bool, rows: Rows, after: Rows, sts: seq<Statement>)
    decreases |sts|
  {
    if sts == [] then rows == after
    else Allowed(inTime, rows, sts[0]) && Rewrites(inTime, AfterStatement(rows, sts[0]), after, sts[1..])
  }

  /** The table is as it was, or its version has risen. */
  predicate SameOrNewer(rows: Rows, after: Rows) { after == rows || Version(rows) < Version(after) }

  lemma {:induction false} SeedingIsStatements(inTime: bool, rows: Rows, kinds: seq<KeyType>, env: Env)
      returns (sts: seq<Statement>)
    requires kinds == KEY_TYPES || kinds == [Refresh] || kinds == []
    requires Clocks(inTime, rows, env, if kinds == KEY_TYPES then 0 else if kinds == [Refresh] then 1 else 2)
    ensures Rewrites(inTime, rows, Seeded(rows, kinds, env).rows, sts)
    ensures forall i :: 0 <= i < |sts| ==> sts[i].RotateTo?
    ensures Clocks(inTime, Seeded(rows, kinds, env).rows, env, 2)
    ensures inTime ==> SameOrNewer(rows, Seeded(rows, kinds, env).rows)
    decreases |kinds|
  {
    sts := [];
    if kinds != [] && FindActive(kinds[0]) !in env.fails {
      var call := Seed(kinds[0]);
      if FirstActive(rows, kinds[0]).Some? {
        sts := SeedingIsStatements(inTime, rows, kinds[1..], env);
      } else if call !in env.fails {
        MintedRotation(inTime, rows, env, call);
        var rest := SeedingIsStatements(inTime, Rotated(rows, Minted(env, call)), kinds[1..], env);
        sts := [RotateTo(Minted(env, call))] + rest;
      }
    }
  }

  /** The active key of the type is overdue and gets expired, and then the rotation fails. */
  predicate HalfRotates(keys: Rows, kt: KeyType, env: Env) {
    var active := FirstActive(keys, kt);
    active.Some? && Due(active.value, env.now) && Expire(kt) !in env.fails && Rotate(kt) in env.fails
  }

  /** What the rotation of one type or several makes of the table: its statements, and, in time, a version
      that rises with each rotation. The published keys change only with the version, unless the access key
      is half rotated. */
  ghost predicate RotationFacts(inTime: bool, rows: Rows, rotated: bool, d: Done, half: bool) {
    && (d.ok && d.rotated == rotated ==> rotated || d.rows == rows)
    && (inTime ==>
        && Version(rows) <= Version(d.rows)
        && (d.ok && d.rotated && !rotated ==> Version(rows) < Version(d.rows))
        && (d.ok ==> SameOrNewer(rows, d.rows))
        && (!half ==> Published(d.rows) == Published(rows) || Version(rows) < Version(d.rows)))
  }

  lemma RefreshKeysAreNotPublished(rows: Rows)
    ensures Published(Retired(rows, Refresh, Expired)) == Published(rows)
  {
    var after := Retired(rows, Refresh, Expired);
    assert forall i :: 0 <= i < |rows| ==> after[i].kid == rows[i].kid && (IsPublished(after[i]) <==> IsPublished(rows[i]));
    forall kid | kid in Published(rows)
      ensures kid in Published(after)
    {
      var i :| 0 <= i < |rows| && IsPublished(rows[i]) && rows[i].kid == kid;
      assert IsPublished(after[i]);
    }
  }

  lemma OneStatement(inTime: bool, rows: Rows, st: Statement)
    requires Allowed(inTime, rows, st)
    ensures Rewrites(inTime, rows, AfterStatement(rows, st), [st])
  {
    assert Rewrites(inTime, AfterStatement(rows, st), AfterStatement(rows, st), [st][1..]);
  }

  lemma TwoStatements(inTime: bool, rows: Rows, st: Statement, su: Statement)
    requires Allowed(inTime, rows, st) && Allowed(inTime, AfterStatement(rows, st), su)
    ensures Rewrites(inTime, rows, AfterStatement(AfterStatement(rows, st), su), [st, su])
  {
    OneStatement(inTime, AfterStatement(rows, st), su);
    assert [st, su][1..] == [su];
  }

  lemma OneTypeIsStatements(inTime: bool, rows: Rows, keys: Rows, kt: KeyType, env: Env) returns (sts: seq<Statement>)
    requires Clocks(inTime, rows, env, Rank(Rotate(kt)))
    ensures Rewrites(inTime, rows, RotatedIfNeeded(rows, keys, kt, env).rows, sts)
    ensures Clocks(inTime, RotatedIfNeeded(rows, keys, kt, env).rows, env, Rank(Rotate(kt)) + 1)
  {
    var active, call := FirstActive(keys, kt), Rotate(kt);
    var left, expire, rotate := Retired(rows, kt, Expired), ExpireActive(kt), RotateTo(Minted(env, Rotate(kt)));
    VersionOfRetired(rows, kt, Expired);
    sts := [];
    if active.None? {
      if call !in env.fails {
        MintedRotation(inTime, rows, env, call);
        OneStatement(inTime, rows, rotate);
        sts := [rotate];
      }
    } else if Due(active.value, env.now) && Expire(kt) !in env.fails {
      if call !in env.fails {
        MintedRotation(inTime, left, env, call);
        TwoStatements(inTime, rows, expire, rotate);
        sts := [expire, rotate];
      } else {
        OneStatement(inTime, rows, expire);
        sts := [expire];
      }
    }
  }

  /** A rotation on the table, or on what expiring the active key has left of it. */
  lemma RotationGives(inTime: bool, rows: Rows, base: Rows, call: Call, env: Env, half: bool)
    requires Rank(call) < 4 && Clocks(inTime, rows, env, Rank(call)) && Version(base) == Version(rows)
    ensures var after := Rotated(base, Minted(env, call));
      && Clocks(inTime, after, env, Rank(call) + 1)
      && RotationFacts(inTime, rows, false, Done(after, true, true), half)
  {
    MintedRotation(inTime, base, env, call);
  }

  lemma OneTypeFacts(inTime: bool, rows: Rows, keys: Rows, kt: KeyType, env: Env)
    requires Clocks(inTime, rows, env, Rank(Rotate(kt)))
    ensures var d := RotatedIfNeeded(rows, keys, kt, env);
      && Clocks(inTime, d.rows, env, Rank(Rotate(kt)) + 1)
      && RotationFacts(inTime, rows, false, d, kt.Access? && HalfRotates(keys, kt, env))
  {
    var active, call := FirstActive(keys, kt), Rotate(kt);
    var half, left := kt.Access? && HalfRotates(keys, kt, env), Retired(rows, kt, Expired);
    VersionOfRetired(rows, kt, Expired);
    if active.None? {
      if call !in env.fails { RotationGives(inTime, rows, rows, call, env, half); }
    } else if Due(active.value, env.now) && Expire(kt) !in env.fails {
      if call !in env.fails {
        RotationGives(inTime, rows, left, call, env, half);
      } else if kt.Refresh? {
        RefreshKeysAreNotPublished(rows);
      }
    }
  }

  lemma {:induction false} RewritesInTwo(
      inTime: bool, a: Rows, b: Rows, c: Rows, first: seq<Statement>, rest: seq<Statement>)
    requires Rewrites(inTime, a, b, first) && Rewrites(inTime, b, c, rest)
    ensures Rewrites(inTime, a, c, first + rest)
    decreases |first|
  {
    if first == [] {
      assert first + rest == rest;
    } else {
      RewritesInTwo(inTime, AfterStatement(a, first[0]), b, c, first[1..], rest);
      assert (first + rest)[1..] == first[1..] + rest;
    }
  }

  lemma FactsJoin(inTime: bool, rows: Rows, rotated: bool, d: Done, e: Done, half: bool)
    requires RotationFacts(inTime, rows, false, d, half) && d.ok
    requires RotationFacts(inTime, d.rows, rotated || d.rotated, e, false)
    requires e.ok && (rotated || d.rotated) ==> e.rotated
    ensures RotationFacts(inTime, rows, rotated, e, half)
  {
  }

  lemma {:induction false} RotatingIsStatements(
      inTime: bool, rows: Rows, rotated: bool, keys: Rows, kinds: seq<KeyType>, env: Env)
      returns (sts: seq<Statement>)
    requires kinds == KEY_TYPES || kinds == [Refresh] || kinds == []
    requires Clocks(inTime, rows, env, if kinds == KEY_TYPES then 2 else if kinds == [Refresh] then 3 else 4)
    ensures Rewrites(inTime, rows, RotatedAll(rows, rotated, keys, kinds, env).rows, sts)
    decreases |kinds|
  {
    sts := [];
    if kinds != [] {
      var d := RotatedIfNeeded(rows, keys, kinds[0], env);
      sts := OneTypeIsStatements(inTime, rows, keys, kinds[0], env);
      if d.ok {
        var rest := RotatingIsStatements(inTime, d.rows, rotated || d.rotated, keys, kinds[1..], env);
        RewritesInTwo(inTime, rows, d.rows, RotatedAll(rows, rotated, keys, kinds, env).rows, sts, rest);
        sts := sts + rest;
      }
    }
  }

  lemma {:induction false} RotatingFacts(
      inTime: bool, rows: Rows, rotated: bool, keys: Rows, kinds: seq<KeyType>, env: Env)
    requires kinds == KEY_TYPES || kinds == [Refresh] || kinds == []
    requires Clocks(inTime, rows, env, if kinds == KEY_TYPES then 2 else if kinds == [Refresh] then 3 else 4)
    ensures RotationFacts(inTime, rows, rotated, RotatedAll(rows, rotated, keys, kinds, env),
                          kinds == KEY_TYPES && HalfRotates(keys, Access, env))
    decreases |kinds|
  {
    if kinds != [] {
      var d := RotatedIfNeeded(rows, keys, kinds[0], env);
      OneTypeFacts(inTime, rows, keys, kinds[0], env);
      if d.ok {
        RotatingFacts(inTime, d.rows, rotated || d.rotated, keys, kinds[1..], env);
        RotatedStaysRotated(d.rows, keys, kinds[1..], env);
        FactsJoin(inTime, rows, rotated, d, RotatedAll(rows, rotated, keys, kinds, env),
                  kinds == KEY_TYPES && HalfRotates(keys, Access, env));
      }
    }
  }

  /** ---------- What a load makes of a cache ---------- */

  /** What a replica's cache is worth between loads: if it looks current and is not empty, it is the
      published set. */
  ghost predicate Exact(c: Cache, rows: Rows) {
    c.version <= Version(rows) && (c.version == Version(rows) && c.published != {} ==> c.published == Published(rows))
  }

  /** The load comes to rotating, and half rotates the access key. */
  predicate HalfExpires(c: Cache, rows: Rows, env: Env) {
    && GetVersion !in env.fails && !Skips(c, rows) && LoadKeys !in env.fails
    && HalfRotates(Loadable(rows), Access, env)
  }

  /** What a timely load makes of a table and a cache. */
  ghost predicate Sound(c: Cache, rows: Rows, o: Outcome, half: bool) {
    && Version(rows) <= Version(o.rows)
    && (Exact(c, rows) ==> Exact(o.cache, o.rows))
    && (Exact(c, rows) && o.ok ==> o.cache.published == Published(o.rows))
    && (!half ==> Published(o.rows) == Published(rows) || Version(rows) < Version(o.rows))
  }

  lemma RefreshIsSound(c: Cache, rows: Rows, env: Env)
    requires TimelyFrom(rows, env, 2)
    ensures Sound(c, rows, Refreshed(c, rows, env),
                  !Skips(c, rows) && LoadKeys !in env.fails && HalfRotates(Loadable(rows), Access, env))
  {
    var d := RotatedAll(rows, false, Loadable(rows), KEY_TYPES, env);
    RotatingFacts(true, rows, false, Loadable(rows), KEY_TYPES, env);
    assert d.ok && !d.rotated ==> d.rows == rows;
  }

  lemma SoundAfterMore(c: Cache, rows: Rows, more: Rows, o: Outcome, half: bool)
    requires Version(rows) < Version(more) && Sound(c, more, o, half)
    ensures Sound(c, rows, o, false)
  {
  }

  lemma LoadIsSound(c: Cache, rows: Rows, env: Env)
    requires TimelyEnv(rows, env)
    ensures Sound(c, rows, Loaded(c, rows, env), HalfExpires(c, rows, env))
  {
    if rows == [] {
      var sts := SeedingIsStatements(true, rows, KEY_TYPES, env);
      var s := Seeded(rows, KEY_TYPES, env).rows;
      var half := !Skips(c, s) && LoadKeys !in env.fails && HalfRotates(Loadable(s), Access, env);
      RefreshIsSound(c, s, env);
      if s != rows {
        SoundAfterMore(c, rows, s, Refreshed(c, s, env), half);
        assert Sound(c, s, Outcome(c, s, false), false);
        SoundAfterMore(c, rows, s, Outcome(c, s, false), false);
      }
    } else {
      RefreshIsSound(c, rows, env);
    }
  }

  /** ---------- What a load renews ---------- */

  /** The key of type `kt` is active and was to be replaced before `now`. */
  predicate Overdue(k: SigningKey, kt: KeyType, now: int) {
    k.keyType == kt && k.status.Active? && k.expires.Some? && k.expires.value < now
  }

  function ExpiredIf(k: SigningKey, overdue: bool): SigningKey { if overdue then k.(status := Expired) else k }

  /** From `rows` to `after`: the active key of type `kt` is expired if it was overdue, and nothing else of what
      there was is changed; what is new is one active key of the type at most, and good for a day; and there is an
      active key of the type. */
  ghost predicate Renewed(rows: Rows, after: Rows, kt: KeyType, now: int) {
    && |rows| <= |after| <= |rows| + 1
    && (forall i :: 0 <= i < |rows| ==> after[i] == ExpiredIf(rows[i], Overdue(rows[i], kt, now)))
    && (|rows| < |after| ==> ActiveOf(after[|rows|], kt) && GoodForADay(after[|rows|]))
    && (exists i :: 0 <= i < |after| && ActiveOf(after[i], kt))
  }

  predicate GoodForADay(k: SigningKey) { k.expires == Some(k.updated + 86_400_000) && k.decodes }

  lemma {:induction false} FirstActiveIs(rows: Rows, kt: KeyType)
    ensures FirstActive(rows, kt).None? ==> forall i :: 0 <= i < |rows| ==> !ActiveOf(rows[i], kt)
    ensures FirstActive(rows, kt).Some? ==>
      exists i :: 0 <= i < |rows| && rows[i] == FirstActive(rows, kt).value && ActiveOf(rows[i], kt)
    decreases |rows|
  {
    if rows != [] {
      FirstActiveIs(rows[1..], kt);
      assert forall i :: 1 <= i < |rows| ==> rows[i] == rows[1..][i - 1];
      if !ActiveOf(rows[0], kt) && FirstActive(rows, kt).Some? {
        var i :| 0 <= i < |rows[1..]| && rows[1..][i] == FirstActive(rows, kt).value && ActiveOf(rows[1..][i], kt);
        assert rows[i + 1] == FirstActive(rows, kt).value;
      }
    }
  }

  lemma {:induction false} LoadingKeepsActive(rows: Rows, kt: KeyType)
    ensures FirstActive(Loadable(rows), kt) == FirstActive(rows, kt)
    decreases |rows|
  {
    if rows != [] {
      LoadingKeepsActive(rows[1..], kt);
      assert !rows[0].status.Expired? ==> Loadable(rows)[1..] == Loadable(rows[1..]);
      assert rows[0].status.Expired? ==> Loadable(rows) == Loadable(rows[1..]);
    }
  }

  /** With at most one active key of the type, the first one found is the only one. */
  lemma OnlyOneActive(rows: Rows, kt: KeyType, i: nat)
    requires OneActive(rows) && i < |rows| && ActiveOf(rows[i], kt)
    ensures FirstActive(rows, kt) == Some(rows[i])
  {
    FirstActiveIs(rows, kt);
  }

  lemma NewKeyRenews(rows: Rows, kt: KeyType, now: int, k: SigningKey)
    requires k.keyType == kt && k.status.Active? && GoodForADay(k)
    requires forall i :: 0 <= i < |rows| && ActiveOf(rows[i], kt) ==> Overdue(rows[i], kt, now)
    ensures Renewed(rows, Rotated(Retired(rows, kt, Expired), k), kt, now)
  {
    var after := Rotated(Retired(rows, kt, Expired), k);
    assert after[|rows|] == k && ActiveOf(after[|rows|], kt);
  }

  lemma OneTypeRenews(rows: Rows, keys: Rows, kt: KeyType, env: Env)
    requires OneActive(rows) && FirstActive(keys, kt) == FirstActive(rows, kt)
    ensures var d := RotatedIfNeeded(rows, keys, kt, env); d.ok ==> Renewed(rows, d.rows, kt, env.now)
  {
    var active, k := FirstActive(rows, kt), Minted(env, Rotate(kt));
    FirstActiveIs(rows, kt);
    forall i | 0 <= i < |rows| && ActiveOf(rows[i], kt)
      ensures active == Some(rows[i])
    {
      OnlyOneActive(rows, kt, i);
    }
    if RotatedIfNeeded(rows, keys, kt, env).ok {
      if active.None? {
        assert Retired(rows, kt, Expired) == rows;
        NewKeyRenews(rows, kt, env.now, k);
      } else if Due(active.value, env.now) {
        NewKeyRenews(rows, kt, env.now, k);
      }
    }
  }

  /** Renewing the one type leaves what the keys fetched before say of the other true. */
  lemma OtherTypeStays(rows: Rows, after: Rows, kt: KeyType, other: KeyType, now: int)
    requires OneActive(rows) && Renewed(rows, after, kt, now) && other != kt
    ensures FirstActive(after, other) == FirstActive(rows, other)
  {
    FirstActiveIs(rows, other);
    FirstActiveIs(after, other);
    forall i | 0 <= i < |after| && ActiveOf(after[i], other)
      ensures i < |rows| && FirstActive(rows, other) == Some(after[i])
    {
      OnlyOneActive(rows, other, i);
    }
  }

  lemma RotationKeepsOneActive(rows: Rows, keys: Rows, kt: KeyType, env: Env)
    requires OneActive(rows)
    ensures OneActive(RotatedIfNeeded(rows, keys, kt, env).rows)
  {
  }

  predicate OverdueAt(k: SigningKey, now: int) { k.status.Active? && k.expires.Some? && k.expires.value < now }

  /** Of a table and what a load that comes to rotating leaves of it, for both types at once. */
  ghost predicate RenewedBoth(rows: Rows, after: Rows, now: int) {
    && |rows| <= |after| <= |rows| + 2
    && (forall i :: 0 <= i < |rows| ==> after[i] == ExpiredIf(rows[i], OverdueAt(rows[i], now)))
    && (forall i :: |rows| <= i < |after| ==> after[i].status.Active? && GoodForADay(after[i]))
    && (forall kt :: HasActive(after, kt))
  }

  ghost predicate HasActive(rows: Rows, kt: KeyType) {
    exists i :: 0 <= i < |rows| && rows[i].status.Active? && rows[i].keyType == kt
  }

  lemma RenewTwice(rows: Rows, middle: Rows, after: Rows, now: int)
    requires Renewed(rows, middle, Access, now) && Renewed(middle, after, Refresh, now)
    ensures RenewedBoth(rows, after, now)
  {
    assert forall i :: |rows| <= i < |middle| ==> after[i] == middle[i];
    var a :| 0 <= a < |middle| && ActiveOf(middle[a], Access);
    assert after[a] == middle[a];
    assert HasActive(after, Access) && HasActive(after, Refresh);
  }

  lemma RotatingRenews(rows: Rows, env: Env)
    requires OneActive(rows)
    ensures var d := RotatedAll(rows, false, Loadable(rows), KEY_TYPES, env); d.ok ==> RenewedBoth(rows, d.rows, env.now)
  {
    var keys := Loadable(rows);
    var d := RotatedIfNeeded(rows, keys, Access, env);
    LoadingKeepsActive(rows, Access);
    LoadingKeepsActive(rows, Refresh);
    OneTypeRenews(rows, keys, Access, env);
    assert KEY_TYPES[1..] == [Refresh] && [Refresh][1..] == [];
    if d.ok {
      RotationKeepsOneActive(rows, keys, Access, env);
      OtherTypeStays(rows, d.rows, Access, Refresh, env.now);
      OneTypeRenews(d.rows, keys, Refresh, env);
      var e := RotatedIfNeeded(d.rows, keys, Refresh, env);
      assert e.ok ==> RotatedAll(rows, false, keys, KEY_TYPES, env).rows == e.rows;
      if e.ok { RenewTwice(rows, d.rows, e.rows, env.now); }
    }
  }

  lemma {:induction false} SeedingKeepsOneActive(rows: Rows, kinds: seq<KeyType>, env: Env)
    requires OneActive(rows)
    ensures OneActive(Seeded(rows, kinds, env).rows)
    decreases |kinds|
  {
    if kinds != [] {
      SeedingKeepsOneActive(rows, kinds[1..], env);
      SeedingKeepsOneActive(Rotated(rows, Minted(env, Seed(kinds[0]))), kinds[1..], env);
    }
  }

  lemma SeedingMakesBoth(env: Env)
    requires Seeded([], KEY_TYPES, env).ok
    ensures var after := Seeded([], KEY_TYPES, env).rows; HasActive(after, Access) && HasActive(after, Refresh)
  {
    var a, r := Minted(env, Seed(Access)), Minted(env, Seed(Refresh));
    assert KEY_TYPES[1..] == [Refresh] && [Refresh][1..] == [];
    assert Rotated([], a) == [a] && Rotated([a], r) == [a, r];
    assert Seeded([], KEY_TYPES, env) == Seeded([a], [Refresh], env);
    assert [a][1..] == [] && FirstActive([a], Refresh).None?;
    assert Seeded([a], [Refresh], env) == Seeded([a, r], [], env);
    assert [a, r][0].status.Active? && [a, r][1].status.Active?;
  }

  /** After a load that returns ok and did not skip, there is an active key of each type; of the rows there were,
      exactly the overdue active ones are expired and the others are as before; and every new one is active and
      good for a day. An overdue key of either type is replaced, and a missing one of either type made. */
  lemma LoadRenews(c: Cache, rows: Rows, env: Env)
    requires OneActive(rows) && Loaded(c, rows, env).ok && (rows == [] || !Skips(c, rows))
    ensures var after := Loaded(c, rows, env).rows;
      && (rows != [] ==> RenewedBoth(rows, after, env.now))
      && HasActive(after, Access) && HasActive(after, Refresh)
  {
    if rows != [] {
      RotatingRenews(rows, env);
    } else {
      var s := Seeded(rows, KEY_TYPES, env).rows;
      SeedingKeepsOneActive(rows, KEY_TYPES, env);
      SeedingMakesBoth(env);
      RotatingRenews(s, env);
    }
  }

  lemma HealthyRotation(rows: Rows, env: Env)
    requires env.fails == {}
    ensures RotatedAll(rows, false, Loadable(rows), KEY_TYPES, env).ok
  {
    assert KEY_TYPES[1..] == [Refresh] && [Refresh][1..] == [];
    var d := RotatedIfNeeded(rows, Loadable(rows), Access, env);
    assert d.ok && RotatedIfNeeded(d.rows, Loadable(rows), Refresh, env).ok;
  }

  lemma DecodingAfterRenewal(rows: Rows, after: Rows, now: int)
    requires RenewedBoth(rows, after, now)
    ensures AllDecode(after) <==>
      forall i :: 0 <= i < |rows| && IsPublished(rows[i]) && !OverdueAt(rows[i], now) ==> rows[i].decodes
  {
    forall i | 0 <= i < |rows|
      ensures IsPublished(after[i]) <==> IsPublished(rows[i]) && !OverdueAt(rows[i], now)
      ensures after[i].decodes == rows[i].decodes
    {
      assert after[i] == ExpiredIf(rows[i], OverdueAt(rows[i], now));
    }
  }

  /** With no call failing, a load of a table with rows succeeds if and only if it is skipped, or every published
      key that it does not expire can be decoded; and it then holds what the table publishes. */
  lemma HealthyLoadSucceedsExactly(c: Cache, rows: Rows, env: Env)
    requires OneActive(rows) && env.fails == {} && rows != []
    ensures var o := Loaded(c, rows, env);
      && (o.ok <==> (|| Skips(c, rows)
                     || forall i :: 0 <= i < |rows| && IsPublished(rows[i]) && !OverdueAt(rows[i], env.now) ==> rows[i].decodes))
      && (o.ok && !Skips(c, rows) ==> o.cache == Cache(Published(o.rows), Version(rows)))
  {
    var d := RotatedAll(rows, false, Loadable(rows), KEY_TYPES, env);
    HealthyRotation(rows, env);
    RotatingRenews(rows, env);
    DecodingAfterRenewal(rows, d.rows, env.now);
  }

  /** ---------- A whole load is a run of statements ---------- */

  /** Runs with any overlap, timely or not. */
  function KindFor(inTime: bool): Kind { Kind(true, true, !inTime) }

  ghost predicate SameCaches(x: System, y: System) {
    |y.served| == |x.served| && forall k :: 0 <= k < |x.served| ==> y.served[k].cache == x.served[k].cache
  }

  /** Load `l` is at the same point, whatever has been marked on what it holds. */
  ghost predicate SamePoint(p: Phase, q: Phase) {
    && (p.Asked? ==> q == p)
    && (p.HasKeys? ==> q.HasKeys? && q.held.cache == p.held.cache)
    && (p.Ended? ==> q.Ended?)
  }

  lemma {:induction false} ExecuteAll(inTime: bool, x: System, l: nat, after: Rows, sts: seq<Statement>)
      returns (y: System)
    requires Rewrites(inTime, x.rows, after, sts) && l < |x.loads|
    requires x.loads[l].phase.HasKeys? || (x.loads[l].phase.Asked? && forall i :: 0 <= i < |sts| ==> sts[i].RotateTo?)
    ensures LeadsTo(KindFor(inTime), x, y) && y.rows == after && SameCaches(x, y)
    ensures |y.loads| == |x.loads| && y.loads[l].replica == x.loads[l].replica
    ensures SamePoint(x.loads[l].phase, y.loads[l].phase)
    decreases |sts|
  {
    if sts == [] {
      y := x;
      NoStep(KindFor(inTime), x);
    } else {
      var z := Apply(x, Execute(Some(l), sts[0]));
      OneStep(KindFor(inTime), x, Execute(Some(l), sts[0]));
      y := ExecuteAll(inTime, z, l, after, sts[1..]);
      LeadsOn(KindFor(inTime), x, z, y);
    }
  }

  /** In `y`, replica `r` has the outcome `o` of a load and the others have the caches they had in `x`. */
  ghost predicate Yields(x: System, y: System, r: nat, o: Outcome) {
    && y.rows == o.rows && |y.served| == |x.served| && r < |x.served| && y.served[r].cache == o.cache
    && forall k :: 0 <= k < |x.served| && k != r ==> y.served[k].cache == x.served[k].cache
  }

  ghost predicate LoadsTo(inTime: bool, x: System, r: nat, o: Outcome) {
    exists y :: LeadsTo(KindFor(inTime), x, y) && Yields(x, y, r, o)
  }

  lemma LoadsOn(inTime: bool, x: System, y: System, r: nat, o: Outcome)
    requires LeadsTo(KindFor(inTime), x, y) && SameCaches(x, y) && LoadsTo(inTime, y, r, o)
    ensures LoadsTo(inTime, x, r, o)
  {
    var z :| LeadsTo(KindFor(inTime), y, z) && Yields(y, z, r, o);
    LeadsOn(KindFor(inTime), x, y, z);
    assert Yields(x, z, r, o);
  }

  lemma AlreadyLoaded(inTime: bool, x: System, r: nat, o: Outcome)
    requires r < |x.served| && o.rows == x.rows && o.cache == x.served[r].cache
    ensures LoadsTo(inTime, x, r, o)
  {
    NoStep(KindFor(inTime), x);
    assert Yields(x, x, r, o);
  }

  lemma FetchAndStore(inTime: bool, x: System, r: nat, l: nat, ok: bool)
    requires r < |x.served| && l < |x.loads| && x.loads[l].replica == r && x.loads[l].phase.HasKeys?
    ensures LoadsTo(inTime, x, r, Outcome(Cache(Published(x.rows), x.loads[l].phase.held.cache.version), x.rows, ok))
  {
    var y := Apply(x, Fetch(l));
    var o := Outcome(Cache(Published(x.rows), x.loads[l].phase.held.cache.version), x.rows, ok);
    OneStep(KindFor(inTime), x, Fetch(l));
    OneStep(KindFor(inTime), y, Store(l));
    LeadsOn(KindFor(inTime), x, y, Apply(y, Store(l)));
    assert Yields(x, Apply(y, Store(l)), r, o);
  }

  lemma FetchRotateStore(inTime: bool, x: System, r: nat, l: nat, env: Env)
    requires r < |x.served| && l < |x.loads| && x.loads[l] == Load(r, Asked(Version(x.rows)))
    requires Clocks(inTime, x.rows, env, 2) && LoadKeys !in env.fails && !Skips(x.served[r].cache, x.rows)
    ensures LoadsTo(inTime, x, r, Refreshed(x.served[r].cache, x.rows, env))
  {
    var o := Refreshed(x.served[r].cache, x.rows, env);
    var sts := RotatingIsStatements(inTime, x.rows, false, Loadable(x.rows), KEY_TYPES, env);
    var x1 := Apply(x, Fetch(l));
    OneStep(KindFor(inTime), x, Fetch(l));
    var x2 := ExecuteAll(inTime, x1, l, o.rows, sts);
    LeadsOn(KindFor(inTime), x, x1, x2);
    if o.ok {
      FetchAndStore(inTime, x2, r, l, true);
    } else {
      AlreadyLoaded(inTime, x2, r, o);
    }
    LoadsOn(inTime, x, x2, r, o);
  }

  lemma RefreshIsRun(inTime: bool, x: System, r: nat, l: nat, env: Env)
    requires r < |x.served| && l < |x.loads| && x.loads[l] == Load(r, Asked(Version(x.rows)))
    requires Clocks(inTime, x.rows, env, 2)
    ensures LoadsTo(inTime, x, r, Refreshed(x.served[r].cache, x.rows, env))
  {
    if Skips(x.served[r].cache, x.rows) || LoadKeys in env.fails {
      AlreadyLoaded(inTime, x, r, Refreshed(x.served[r].cache, x.rows, env));
    } else {
      FetchRotateStore(inTime, x, r, l, env);
    }
  }

  /** Whatever fails in it, a load of one replica is a run of single statements, timely if its rotations are:
      so all that holds of interleaved statements holds of loads. */
  lemma LoadIsRun(inTime: bool, x: System, r: nat, env: Env)
    requires r < |x.served| && (inTime ==> TimelyEnv(x.rows, env))
    ensures LoadsTo(inTime, x, r, Loaded(x.served[r].cache, x.rows, env))
  {
    var o := Loaded(x.served[r].cache, x.rows, env);
    if GetVersion in env.fails || (x.rows != [] && Skips(x.served[r].cache, x.rows)) {
      AlreadyLoaded(inTime, x, r, o);
    } else if x.rows != [] {
      OneStep(KindFor(inTime), x, Ask(r));
      RefreshIsRun(inTime, Apply(x, Ask(r)), r, |x.loads|, env);
      LoadsOn(inTime, x, Apply(x, Ask(r)), r, o);
    } else {
      SeedAndRefresh(inTime, x, r, env);
    }
  }

  lemma SeedAndRefresh(inTime: bool, x: System, r: nat, env: Env)
    requires r < |x.served| && (inTime ==> TimelyEnv(x.rows, env)) && x.rows == [] && GetVersion !in env.fails
    ensures LoadsTo(inTime, x, r, Loaded(x.served[r].cache, x.rows, env))
  {
    var l, s, o := |x.loads|, Seeded(x.rows, KEY_TYPES, env), Loaded(x.served[r].cache, x.rows, env);
    var sts := SeedingIsStatements(inTime, x.rows, KEY_TYPES, env);
    var x1 := Apply(x, Ask(r));
    OneStep(KindFor(inTime), x, Ask(r));
    var x2 := ExecuteAll(inTime, x1, l, s.rows, sts);
    LeadsOn(KindFor(inTime), x, x1, x2);
    if !s.ok || GetVersionAgain in env.fails {
      AlreadyLoaded(inTime, x2, r, o);
      LoadsOn(inTime, x, x2, r, o);
    } else {
      var x3 := Apply(x2, AskAgain(l));
      OneStep(KindFor(inTime), x2, AskAgain(l));
      LeadsOn(KindFor(inTime), x, x2, x3);
      if x3.loads[l].phase.Ended? {
        AlreadyLoaded(inTime, x3, r, o);
      } else {
        RefreshIsRun(inTime, x3, r, l, env);
      }
      LoadsOn(inTime, x, x3, r, o);
    }
  }
}
