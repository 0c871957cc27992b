/**
 Runs in which loads do not overlap: each load of a replica, with whatever fails in it, is one step.
 */
module JwksFleet {
  import opened Wrappers
  import opened Jwks
  import opened JwksTheorems
  import opened JwksLoads

  /** ---------- Runs of whole loads ---------- */

  datatype Fleet = Fleet(rows: Rows, caches: seq<Cache>)

  /** `Get` is GetJwkSet on one replica, `Scheduled` a timed rotation, which is one transaction. */
  datatype Request = Start | Get(r: nat, env: Env) | Scheduled(key: SigningKey)

  /** What a run may have: several replicas, loads that expire the access key and then fail to rotate it, and
      rotations whose clock is not later than the table's. Every other failure is always allowed. */
  datatype RunKind = RunKind(several: bool, halfExpiry: bool, lateClock: bool)

  ghost predicate CanCall(kind: RunKind, x: Fleet, call: Request) {
    match call
    case Start => kind.several || x.caches == []
    case Get(r, env) =>
      && r < |x.caches|
      && (kind.halfExpiry || !HalfExpires(x.caches[r], x.rows, env))
      && (kind.lateClock || TimelyEnv(x.rows, env))
    case Scheduled(k) => k.status.Active? && (kind.lateClock || Version(x.rows) < k.updated)
  }

  function AfterCall(x: Fleet, call: Request): Fleet {
    match call
    case Start => x.(caches := x.caches + [EMPTY_CACHE])
    case Get(r, env) =>
      if r < |x.caches| then
        var o := Loaded(x.caches[r], x.rows, env);
        Fleet(o.rows, x.caches[r := o.cache])
      else x
    case Scheduled(k) => x.(rows := Rotated(x.rows, k))
  }

  function AfterCalls(calls: seq<Request>): Fleet {
    if calls == [] then Fleet([], []) else AfterCall(AfterCalls(calls[..|calls| - 1]), calls[|calls| - 1])
  }

  /** `calls`, oldest first, is a run of the kind. */
  ghost predicate IsRun(kind: RunKind, calls: seq<Request>) {
    calls == [] ||
      (IsRun(kind, calls[..|calls| - 1]) && CanCall(kind, AfterCalls(calls[..|calls| - 1]), calls[|calls| - 1]))
  }

  ghost predicate RunsTo(kind: RunKind, x: Fleet) { exists calls :: IsRun(kind, calls) && AfterCalls(calls) == x }

  /** In every run of the kind, every set a replica returns is the ACTIVE and INACTIVE access keys of the table. */
  ghost predicate AllGetsExact(kind: RunKind) {
    forall x, r: nat, env ::
      RunsTo(kind, x) && CanCall(kind, x, Get(r, env)) && Loaded(x.caches[r], x.rows, env).ok ==>
        Loaded(x.caches[r], x.rows, env).cache.published == Published(Loaded(x.caches[r], x.rows, env).rows)
  }

  ghost predicate AllExact(kind: RunKind, x: Fleet) {
    (kind.several || |x.caches| <= 1) && forall r :: 0 <= r < |x.caches| ==> Exact(x.caches[r], x.rows)
  }

  /** The kinds of run in which the cache can be relied on. */
  predicate Reliable(kind: RunKind) { !kind.lateClock && (!kind.several || !kind.halfExpiry) }

  lemma CallKeepsExact(kind: RunKind, x: Fleet, call: Request)
    requires Reliable(kind) && AllExact(kind, x) && CanCall(kind, x, call)
    ensures AllExact(kind, AfterCall(x, call))
  {
    match call
    case Start =>
    case Get(r, env) => LoadIsSound(x.caches[r], x.rows, env);
    case Scheduled(k) => VersionOfRotated(x.rows, k);
  }

  lemma {:induction false} RunKeepsExact(kind: RunKind, calls: seq<Request>)
    requires Reliable(kind) && IsRun(kind, calls)
    ensures AllExact(kind, AfterCalls(calls))
  {
    if calls != [] {
      RunKeepsExact(kind, calls[..|calls| - 1]);
      CallKeepsExact(kind, AfterCalls(calls[..|calls| - 1]), calls[|calls| - 1]);
    }
  }

  lemma ReliableIsExact(kind: RunKind)
    requires Reliable(kind)
    ensures AllGetsExact(kind)
  {
    forall x, r: nat, env | RunsTo(kind, x) && CanCall(kind, x, Get(r, env)) && Loaded(x.caches[r], x.rows, env).ok
      ensures Loaded(x.caches[r], x.rows, env).cache.published == Published(Loaded(x.caches[r], x.rows, env).rows)
    {
      var calls :| IsRun(kind, calls) && AfterCalls(calls) == x;
      RunKeepsExact(kind, calls);
      LoadIsSound(x.caches[r], x.rows, env);
    }
  }

  /** ---------- The runs that break it ---------- */

  lemma RunsThen(kind: RunKind, x: Fleet, call: Request, y: Fleet)
    requires RunsTo(kind, x) && CanCall(kind, x, call) && y == AfterCall(x, call)
    ensures RunsTo(kind, y)
  {
    var calls :| IsRun(kind, calls) && AfterCalls(calls) == x;
    var more := calls + [call];
    assert more[..|more| - 1] == calls && more[|more| - 1] == call;
    assert IsRun(kind, more) && AfterCalls(more) == y;
  }

  const ACCESS_KEY := SigningKey(0, Access, Active, 1, Some(1 + DAY), true)
  const REFRESH_KEY := SigningKey(1, Refresh, Active, 2, Some(2 + DAY), true)

  const FIRST_ENV := Env({}, 0,
    map[Seed(Access) := Mint(0, 1), Seed(Refresh) := Mint(1, 2), Rotate(Access) := Mint(2, 3), Rotate(Refresh) := Mint(3, 4)])

  /** A day later, with the access key overdue and `fails` failing. */
  function LaterEnv(fails: set<Call>): Env {
    Env(fails, 2 + DAY,
      map[Seed(Access) := Mint(4, 3), Seed(Refresh) := Mint(5, 4), Rotate(Access) := Mint(6, 5), Rotate(Refresh) := Mint(7, 6)])
  }

  function SeededRows(): Rows { [ACCESS_KEY, REFRESH_KEY] }

  lemma SeedsGive()
    ensures Seeded([], KEY_TYPES, FIRST_ENV) == Done(SeededRows(), false, true)
  {
    assert Rotated([], ACCESS_KEY) == [ACCESS_KEY] && Rotated([ACCESS_KEY], REFRESH_KEY) == SeededRows();
    assert Minted(FIRST_ENV, Seed(Access)) == ACCESS_KEY && Minted(FIRST_ENV, Seed(Refresh)) == REFRESH_KEY;
    assert [ACCESS_KEY][1..] == [] && FirstActive([ACCESS_KEY], Refresh) == None;
    assert KEY_TYPES[1..] == [Refresh] && [Refresh][1..] == [];
    assert Seeded(SeededRows(), [], FIRST_ENV) == Done(SeededRows(), false, true);
    assert Seeded([ACCESS_KEY], [Refresh], FIRST_ENV) == Done(SeededRows(), false, true);
  }

  lemma SeededTable()
    ensures Version(SeededRows()) == 2 && Published(SeededRows()) == {0} && AllDecode(SeededRows())
    ensures Loadable(SeededRows()) == SeededRows()
  {
    var rows := SeededRows();
    assert rows == [] + [ACCESS_KEY] + [REFRESH_KEY];
    PublishedAppend([], ACCESS_KEY);
    PublishedAppend([ACCESS_KEY], REFRESH_KEY);
    assert rows[1..] == [REFRESH_KEY] && Loadable([REFRESH_KEY]) == [REFRESH_KEY] + Loadable([REFRESH_KEY][1..]);
    assert rows[..1] == [ACCESS_KEY] && [ACCESS_KEY][..0] == [];
  }

  lemma FirstLoad()
    ensures Loaded(EMPTY_CACHE, [], FIRST_ENV) == Outcome(Cache({0}, 2), SeededRows(), true)
  {
    SeedsGive();
    SeededTable();
    var rows := SeededRows();
    assert rows[1..] == [REFRESH_KEY];
    assert FirstActive(rows, Access) == Some(ACCESS_KEY);
    assert FirstActive(rows, Refresh) == Some(REFRESH_KEY);
    assert RotatedIfNeeded(rows, rows, Access, FIRST_ENV) == Done(rows, false, true);
    assert RotatedIfNeeded(rows, rows, Refresh, FIRST_ENV) == Done(rows, false, true);
    assert KEY_TYPES[1..] == [Refresh] && [Refresh][1..] == [];
    assert RotatedAll(rows, false, rows, [Refresh], FIRST_ENV) == Done(rows, false, true);
  }

  /** One replica booted and loaded; with `more`, another one booted before that. */
  function Loaded1(more: bool): Fleet {
    Fleet(SeededRows(), if more then [Cache({0}, 2), EMPTY_CACHE] else [Cache({0}, 2)])
  }

  lemma Started(kind: RunKind, more: bool)
    requires more ==> kind.several
    ensures RunsTo(kind, Fleet([], if more then [EMPTY_CACHE, EMPTY_CACHE] else [EMPTY_CACHE]))
  {
    var x, x1 := Fleet([], []), Fleet([], [EMPTY_CACHE]);
    assert IsRun(kind, []) && AfterCalls([]) == x;
    RunsThen(kind, x, Start, x1);
    if more {
      RunsThen(kind, x1, Start, Fleet([], [EMPTY_CACHE, EMPTY_CACHE]));
    }
  }

  lemma FirstCall(kind: RunKind, more: bool)
    ensures var x := Fleet([], if more then [EMPTY_CACHE, EMPTY_CACHE] else [EMPTY_CACHE]);
      CanCall(kind, x, Get(0, FIRST_ENV)) && AfterCall(x, Get(0, FIRST_ENV)) == Loaded1(more)
  {
    FirstLoad();
    var x := Fleet([], if more then [EMPTY_CACHE, EMPTY_CACHE] else [EMPTY_CACHE]);
    assert x.caches[0 := Cache({0}, 2)] == Loaded1(more).caches;
  }

  lemma OneLoaded(kind: RunKind, more: bool)
    requires more ==> kind.several
    ensures RunsTo(kind, Loaded1(more))
  {
    Started(kind, more);
    FirstCall(kind, more);
    RunsThen(kind, Fleet([], if more then [EMPTY_CACHE, EMPTY_CACHE] else [EMPTY_CACHE]), Get(0, FIRST_ENV), Loaded1(more));
  }

  /** A scheduled rotation with an older clock is invisible to the replica that has loaded. */
  lemma LateClockBreaksIt(kind: RunKind)
    requires kind.lateClock
    ensures !AllGetsExact(kind)
  {
    var k := SigningKey(9, Access, Active, 1, None, true);
    var x, y := Loaded1(false), AfterCall(Loaded1(false), Scheduled(k));
    OneLoaded(kind, false);
    RunsThen(kind, x, Scheduled(k), y);
    SeededTable();
    assert forall i :: 0 <= i < |SeededRows()| ==> SeededRows()[i].kid != 9;
    LateClockHidesExactly(SeededRows(), k);
    assert Loaded(y.caches[0], y.rows, FIRST_ENV) == Outcome(Cache({0}, 2), y.rows, true);
    assert CanCall(kind, y, Get(0, FIRST_ENV));
  }

  lemma FailingLoad()
    ensures var env := LaterEnv({Rotate(Access)});
      && Loaded(EMPTY_CACHE, SeededRows(), env) == Outcome(EMPTY_CACHE, Retired(SeededRows(), Access, Expired), false)
      && TimelyEnv(SeededRows(), env)
  {
    var env, rows := LaterEnv({Rotate(Access)}), SeededRows();
    SeededTable();
    assert FirstActive(rows, Access) == Some(ACCESS_KEY);
    assert RotatedIfNeeded(rows, rows, Access, env) == Done(Retired(rows, Access, Expired), true, false);
  }

  lemma StaleServed()
    ensures var env, left := LaterEnv({Rotate(Access)}), Retired(SeededRows(), Access, Expired);
      && Loaded(Cache({0}, 2), left, env) == Outcome(Cache({0}, 2), left, true)
      && 0 !in Published(left) && TimelyEnv(left, env) && Skips(Cache({0}, 2), left)
  {
    var env, left := LaterEnv({Rotate(Access)}), Retired(SeededRows(), Access, Expired);
    SeededTable();
    VersionOfRetired(SeededRows(), Access, Expired);
    assert 0 in Cache({0}, 2).published;
  }

  /** A second replica expires the overdue key and cannot rotate; the first serves the key on. */
  lemma HalfExpiryBreaksIt(kind: RunKind)
    requires kind.several && kind.halfExpiry
    ensures !AllGetsExact(kind)
  {
    var env, left := LaterEnv({Rotate(Access)}), Retired(SeededRows(), Access, Expired);
    var y := Fleet(left, [Cache({0}, 2), EMPTY_CACHE]);
    OneLoaded(kind, true);
    FailingLoad();
    RunsThen(kind, Loaded1(true), Get(1, env), y);
    StaleServed();
    assert CanCall(kind, y, Get(0, env));
  }

  /** Every set a replica returns is exact, in every run, if and only if no rotation has a late clock and
      either there is one replica or no load expires the access key and then fails to rotate it. */
  lemma GetsExactExactly(kind: RunKind)
    ensures AllGetsExact(kind) <==> Reliable(kind)
  {
    if Reliable(kind) {
      ReliableIsExact(kind);
    } else if kind.lateClock {
      LateClockBreaksIt(kind);
    } else {
      HalfExpiryBreaksIt(kind);
    }
  }
}
