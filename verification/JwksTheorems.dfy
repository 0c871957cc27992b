/**
 What holds of the signing keys in every run in which the single statements of any number of replicas, and of
 any number of loads in each, interleave freely.
 */
module JwksTheorems {
  import opened Wrappers
  import opened Jwks

  /** ---------- Statements in any order ---------- */

  datatype Statement = RotateTo(key: SigningKey) | ExpireActive(keyType: KeyType)

  /** A rotation with a later `updated_at` than the table has. */
  predicate Timely(rows: Rows, st: Statement) { st.RotateTo? ==> Version(rows) < st.key.updated }

  function AfterStatement(rows: Rows, st: Statement): Rows {
    match st
    case RotateTo(k) => Rotated(rows, k)
    case ExpireActive(kt) => Retired(rows, kt, Expired)
  }

  /** The statement takes away a published key. */
  predicate Withdraws(rows: Rows, st: Statement) { st.ExpireActive? && Published(AfterStatement(rows, st)) != Published(rows) }

  /** A key set read from the table with the version read before it; `stale` records that a published key
      has been withdrawn since the keys were read. */
  datatype Snapshot = Snapshot(cache: Cache, stale: bool)

  /** A load between its statements; `dirty` says that it has changed the table since it last read the keys. */
  datatype Phase = Asked(version: int) | HasKeys(held: Snapshot, dirty: bool) | Ended
  datatype Load = Load(replica: nat, phase: Phase)

  /** `served[r]` is the cache of replica r. `withdrawn` records that a published key has been withdrawn and
      no key rotated in since. */
  datatype System = System(rows: Rows, served: seq<Snapshot>, loads: seq<Load>, withdrawn: bool)

  const FRESH := Snapshot(EMPTY_CACHE, false)
  const START := System([], [], [], false)

  /** `Ask` begins a load by reading the version, which ends it if the reload is skipped; `Execute` is a
      statement of a load, or of the scheduler, which only rotates; `Drop` is a load that fails, at any point. */
  datatype Step =
    | Boot
    | Execute(doer: Option<nat>, st: Statement)
    | Ask(r: nat)
    | AskAgain(l: nat)
    | Fetch(l: nat)
    | Store(l: nat)
    | Drop(l: nat)

  predicate MayExecute(x: System, doer: Option<nat>, st: Statement) {
    && (st.RotateTo? ==> st.key.status.Active?)
    && match doer {
      case None => st.RotateTo?
      case Some(l) => l < |x.loads| && (x.loads[l].phase.HasKeys? || (x.loads[l].phase.Asked? && st.RotateTo?))
    }
  }

  predicate Enabled(x: System, step: Step) {
    match step
    case Boot => true
    case Execute(doer, st) => MayExecute(x, doer, st)
    case Ask(r) => r < |x.served|
    case AskAgain(l) => l < |x.loads| && x.loads[l].phase.Asked?
    case Fetch(l) => l < |x.loads| && !x.loads[l].phase.Ended?
    case Store(l) => l < |x.loads| && x.loads[l].phase.HasKeys? && !x.loads[l].phase.dirty && x.loads[l].replica < |x.served|
    case Drop(l) => l < |x.loads|
  }

  function Marked(s: Snapshot, withdraws: bool): Snapshot { s.(stale := s.stale || withdraws) }

  function PhaseAfter(p: Phase, own: bool, withdraws: bool): Phase {
    if p.HasKeys? then HasKeys(Marked(p.held, withdraws), p.dirty || own) else p
  }

  function Executed(x: System, doer: Option<nat>, st: Statement): System {
    var w := Withdraws(x.rows, st);
    System(
      AfterStatement(x.rows, st),
      seq(|x.served|, r requires 0 <= r < |x.served| => Marked(x.served[r], w)),
      seq(|x.loads|, l requires 0 <= l < |x.loads| =>
        x.loads[l].(phase := PhaseAfter(x.loads[l].phase, doer == Some(l), w))),
      st.ExpireActive? && (x.withdrawn || w))
  }

  /** The reload is skipped; a table without rows has no version, and nothing to skip to. */
  predicate ServesCached(x: System, r: nat)
    requires r < |x.served|
  {
    x.rows != [] && Skips(x.served[r].cache, x.rows)
  }

  function InPhase(x: System, l: nat, phase: Phase): System
    requires l < |x.loads|
  {
    x.(loads := x.loads[l := x.loads[l].(phase := phase)])
  }

  function Apply(x: System, step: Step): System
    requires Enabled(x, step)
  {
    match step
    case Boot => x.(served := x.served + [FRESH])
    case Execute(doer, st) => Executed(x, doer, st)
    case Ask(r) => if ServesCached(x, r) then x else x.(loads := x.loads + [Load(r, Asked(Version(x.rows)))])
    case AskAgain(l) =>
      var r := x.loads[l].replica;
      InPhase(x, l, if r < |x.served| && ServesCached(x, r) then Ended else Asked(Version(x.rows)))
    case Fetch(l) =>
      var p := x.loads[l].phase;
      var version := if p.Asked? then p.version else p.held.cache.version;
      InPhase(x, l, HasKeys(Snapshot(Cache(Published(x.rows), version), false), false))
    case Store(l) =>
      var y := InPhase(x, l, Ended);
      y.(served := x.served[x.loads[l].replica := x.loads[l].phase.held])
    case Drop(l) => InPhase(x, l, Ended)
  }

  /** ---------- Kinds of run ---------- */

  /** What a run may have. `overlap`: several replicas, or several loads of a replica at a time. `window`: a
      version read while a published key is withdrawn and none has been rotated in since, be it that the
      rotation is still to come or that it failed. `lateClock`: rotations whose `updated_at` is not later than
      the table's. Failures are always allowed. */
  datatype Kind = Kind(overlap: bool, window: bool, lateClock: bool)

  predicate AllEnded(x: System) { forall l :: 0 <= l < |x.loads| ==> x.loads[l].phase.Ended? }

  predicate Permits(kind: Kind, x: System, step: Step) {
    && Enabled(x, step)
    && (step.Boot? ==> kind.overlap || x.served == [])
    && (step.Ask? ==> kind.overlap || AllEnded(x))
    && (step.Ask? || step.AskAgain? ==> kind.window || !x.withdrawn)
    && (step.Execute? ==> kind.lateClock || Timely(x.rows, step.st))
  }

  ghost predicate Leads(kind: Kind, x: System, y: System, steps: seq<Step>)
    decreases |steps|
  {
    if steps == [] then x == y
    else Permits(kind, x, steps[0]) && Leads(kind, Apply(x, steps[0]), y, steps[1..])
  }

  ghost predicate LeadsTo(kind: Kind, x: System, y: System) { exists steps :: Leads(kind, x, y, steps) }

  ghost predicate Reachable(kind: Kind, x: System) { LeadsTo(kind, START, x) }

  /** At most one ACTIVE key of each type. */
  ghost predicate OneActive(rows: Rows) {
    forall i, j :: 0 <= i < j < |rows| && rows[i].status.Active? && rows[j].status.Active? ==>
      rows[i].keyType != rows[j].keyType
  }

  ghost predicate IsAccessKid(rows: Rows, kid: Kid) {
    exists i :: 0 <= i < |rows| && rows[i].kid == kid && rows[i].keyType.Access?
  }

  lemma StepKeepsOneActive(x: System, step: Step)
    requires OneActive(x.rows) && Enabled(x, step)
    ensures OneActive(Apply(x, step).rows)
  {
  }

  lemma {:induction false} RunKeepsOneActive(kind: Kind, x: System, y: System, steps: seq<Step>)
    requires OneActive(x.rows) && Leads(kind, x, y, steps)
    ensures OneActive(y.rows)
    decreases |steps|
  {
    if steps != [] {
      StepKeepsOneActive(x, steps[0]);
      RunKeepsOneActive(kind, Apply(x, steps[0]), y, steps[1..]);
    }
  }

  /** In every interleaving of statements, whatever the clocks say. */
  lemma AtMostOneActiveKey(kind: Kind, x: System)
    requires Reachable(kind, x)
    ensures OneActive(x.rows)
  {
    var steps :| Leads(kind, START, x, steps);
    RunKeepsOneActive(kind, START, x, steps);
  }

  /** ---------- What timely runs keep ---------- */

  /** `kids` has every published key updated by `version`, and nothing but access keys of the table. */
  ghost predicate Covers(rows: Rows, kids: set<Kid>, version: int) {
    && version <= Version(rows)
    && (forall i :: 0 <= i < |rows| && IsPublished(rows[i]) && rows[i].updated <= version ==> rows[i].kid in kids)
    && (forall kid :: kid in kids ==> IsAccessKid(rows, kid))
  }

  /** A snapshot whose version is still the table's is the published set, or has become stale: then it properly
      contains the published set, and no key has been rotated in since. */
  ghost predicate SnapshotInv(rows: Rows, withdrawn: bool, s: Snapshot) {
    && Covers(rows, s.cache.published, s.cache.version)
    && (s.cache.version == Version(rows) ==>
        if s.stale then withdrawn && Published(rows) < s.cache.published else s.cache.published == Published(rows))
  }

  ghost predicate LoadInv(x: System, load: Load) {
    && load.replica < |x.served|
    && (load.phase.Asked? ==> load.phase.version <= Version(x.rows))
    && (load.phase.HasKeys? ==> SnapshotInv(x.rows, x.withdrawn, load.phase.held))
  }

  ghost predicate Inv(x: System) {
    && (forall i :: 0 <= i < |x.rows| ==> ZERO_TIME < x.rows[i].updated)
    && (forall r :: 0 <= r < |x.served| ==> SnapshotInv(x.rows, x.withdrawn, x.served[r]))
    && (forall l :: 0 <= l < |x.loads| ==> LoadInv(x, x.loads[l]))
  }

  lemma VersionOfRetired(rows: Rows, kt: KeyType, to: KeyStatus)
    ensures Version(Retired(rows, kt, to)) == Version(rows)
  {
    var after := Retired(rows, kt, to);
    assert forall i :: 0 <= i < |rows| ==> after[i].updated == rows[i].updated;
    assert Version(rows) == ZERO_TIME || exists i :: 0 <= i < |after| && after[i].updated == Version(rows);
  }

  lemma VersionOfRotated(rows: Rows, k: SigningKey)
    requires Version(rows) < k.updated
    ensures Version(Rotated(rows, k)) == k.updated
  {
    var after := Rotated(rows, k);
    VersionOfRetired(rows, k.keyType, Inactive);
    assert after[..|rows|] == Retired(rows, k.keyType, Inactive);
  }

  lemma VersionAfter(rows: Rows, st: Statement)
    requires Timely(rows, st)
    ensures Version(AfterStatement(rows, st)) == if st.RotateTo? then st.key.updated else Version(rows)
  {
    match st
    case RotateTo(k) => VersionOfRotated(rows, k);
    case ExpireActive(kt) => VersionOfRetired(rows, kt, Expired);
  }

  lemma StatementKeepsKeys(rows: Rows, st: Statement)
    ensures var after := AfterStatement(rows, st);
      && |rows| <= |after|
      && (forall i :: 0 <= i < |rows| ==> (
            && after[i].kid == rows[i].kid && after[i].updated == rows[i].updated
            && after[i].keyType == rows[i].keyType && (IsPublished(after[i]) ==> IsPublished(rows[i]))))
      && (forall i :: |rows| <= i < |after| ==> st.RotateTo? && after[i] == st.key)
  {
  }

  lemma StatementKeepsCovers(rows: Rows, st: Statement, kids: set<Kid>, version: int)
    requires Timely(rows, st) && Covers(rows, kids, version)
    ensures Covers(AfterStatement(rows, st), kids, version)
  {
    var after := AfterStatement(rows, st);
    VersionAfter(rows, st);
    StatementKeepsKeys(rows, st);
    forall kid | kid in kids
      ensures IsAccessKid(after, kid)
    {
      assert IsAccessKid(rows, kid);
      var i :| 0 <= i < |rows| && rows[i].kid == kid && rows[i].keyType.Access?;
      assert after[i].kid == kid;
    }
  }

  /** A rotation takes no published key away, and publishes the new one if it is an access key; an expiry takes
      away exactly the active key of its type. */
  lemma StatementPublishes(rows: Rows, st: Statement, kid: Kid)
    requires st.RotateTo? ==> st.key.status.Active?
    ensures kid in Published(AfterStatement(rows, st)) <==>
      if st.RotateTo? then kid in Published(rows) || (st.key.keyType.Access? && kid == st.key.kid)
      else exists i :: 0 <= i < |rows| && rows[i].kid == kid && IsPublished(rows[i]) && !ActiveOf(rows[i], st.keyType)
  {
    var after := AfterStatement(rows, st);
    assert forall i :: 0 <= i < |rows| ==> (after[i].kid == rows[i].kid &&
      (IsPublished(after[i]) <==> IsPublished(rows[i]) && !(st.ExpireActive? && ActiveOf(rows[i], st.keyType))));
    if st.RotateTo? {
      assert after[|rows|] == st.key;
      if kid in Published(rows) {
        var i :| 0 <= i < |rows| && IsPublished(rows[i]) && rows[i].kid == kid;
        assert IsPublished(after[i]) && after[i].kid == kid;
      }
      if st.key.keyType.Access? { assert IsPublished(after[|rows|]); }
    } else if i :| 0 <= i < |rows| && rows[i].kid == kid && IsPublished(rows[i]) && !ActiveOf(rows[i], st.keyType) {
      assert IsPublished(after[i]) && after[i].kid == kid;
    }
  }

  lemma ExpiryOnlyTakesAway(rows: Rows, kt: KeyType)
    ensures Published(Retired(rows, kt, Expired)) <= Published(rows)
  {
    StatementKeepsKeys(rows, ExpireActive(kt));
  }

  lemma StatementKeepsSnapshot(rows: Rows, withdrawn: bool, st: Statement, s: Snapshot)
    requires Timely(rows, st) && SnapshotInv(rows, withdrawn, s)
    ensures var w := Withdraws(rows, st);
      SnapshotInv(AfterStatement(rows, st), st.ExpireActive? && (withdrawn || w), Marked(s, w))
  {
    VersionAfter(rows, st);
    StatementKeepsCovers(rows, st, s.cache.published, s.cache.version);
    if st.ExpireActive? { ExpiryOnlyTakesAway(rows, st.keyType); }
  }

  lemma PublishedCovers(rows: Rows, version: int)
    requires version <= Version(rows)
    ensures Covers(rows, Published(rows), version)
  {
    forall kid | kid in Published(rows)
      ensures IsAccessKid(rows, kid)
    {
      var i :| 0 <= i < |rows| && IsPublished(rows[i]) && rows[i].kid == kid;
    }
  }

  lemma ExecuteKeepsLoad(x: System, doer: Option<nat>, st: Statement, l: nat)
    requires Inv(x) && Timely(x.rows, st) && l < |x.loads|
    ensures LoadInv(Executed(x, doer, st), Executed(x, doer, st).loads[l])
  {
    VersionAfter(x.rows, st);
    assert LoadInv(x, x.loads[l]);
    if x.loads[l].phase.HasKeys? {
      StatementKeepsSnapshot(x.rows, x.withdrawn, st, x.loads[l].phase.held);
    }
  }

  lemma ExecuteKeepsTimes(rows: Rows, st: Statement)
    requires Timely(rows, st) && forall i :: 0 <= i < |rows| ==> ZERO_TIME < rows[i].updated
    ensures forall i :: 0 <= i < |AfterStatement(rows, st)| ==> ZERO_TIME < AfterStatement(rows, st)[i].updated
  {
    StatementKeepsKeys(rows, st);
  }

  lemma ExecuteKeepsInv(x: System, doer: Option<nat>, st: Statement)
    requires Inv(x) && Timely(x.rows, st)
    ensures Inv(Executed(x, doer, st))
  {
    var y := Executed(x, doer, st);
    ExecuteKeepsTimes(x.rows, st);
    forall r | 0 <= r < |x.served|
      ensures SnapshotInv(y.rows, y.withdrawn, y.served[r])
    {
      StatementKeepsSnapshot(x.rows, x.withdrawn, st, x.served[r]);
    }
    forall l | 0 <= l < |x.loads|
      ensures LoadInv(y, y.loads[l])
    {
      ExecuteKeepsLoad(x, doer, st, l);
    }
  }

  lemma LoadStepKeepsInv(x: System, l: nat, phase: Phase)
    requires Inv(x) && l < |x.loads| && LoadInv(x, x.loads[l].(phase := phase))
    ensures Inv(InPhase(x, l, phase))
  {
  }

  lemma FetchKeepsInv(x: System, l: nat)
    requires Inv(x) && Enabled(x, Fetch(l))
    ensures Inv(Apply(x, Fetch(l)))
  {
    var p := x.loads[l].phase;
    assert LoadInv(x, x.loads[l]);
    PublishedCovers(x.rows, if p.Asked? then p.version else p.held.cache.version);
    LoadStepKeepsInv(x, l, Apply(x, Fetch(l)).loads[l].phase);
  }

  lemma StoreKeepsInv(x: System, l: nat)
    requires Inv(x) && Enabled(x, Store(l))
    ensures Inv(Apply(x, Store(l)))
  {
    assert LoadInv(x, x.loads[l]);
    LoadStepKeepsInv(x, l, Ended);
    var y, z := InPhase(x, l, Ended), Apply(x, Store(l));
    assert forall k :: 0 <= k < |y.loads| ==> LoadInv(y, y.loads[k]) && z.loads[k] == y.loads[k];
  }

  lemma StepKeepsInv(x: System, step: Step)
    requires Inv(x) && Enabled(x, step) && (step.Execute? ==> Timely(x.rows, step.st))
    ensures Inv(Apply(x, step))
  {
    match step
    case Boot => BootKeepsInv(x);
    case Execute(doer, st) => ExecuteKeepsInv(x, doer, st);
    case Ask(r) =>
    case AskAgain(l) => LoadStepKeepsInv(x, l, Apply(x, step).loads[l].phase);
    case Fetch(l) => FetchKeepsInv(x, l);
    case Store(l) => StoreKeepsInv(x, l);
    case Drop(l) => LoadStepKeepsInv(x, l, Ended);
  }

  lemma BootKeepsInv(x: System)
    requires Inv(x)
    ensures Inv(Apply(x, Boot))
  {
    assert x.rows == [] || ZERO_TIME < x.rows[0].updated <= Version(x.rows);
    assert forall l :: 0 <= l < |x.loads| ==> LoadInv(x, x.loads[l]);
  }

  lemma {:induction false} RunKeepsInv(kind: Kind, x: System, y: System, steps: seq<Step>)
    requires Inv(x) && Leads(kind, x, y, steps) && !kind.lateClock
    ensures Inv(y)
    decreases |steps|
  {
    if steps != [] {
      StepKeepsInv(x, steps[0]);
      RunKeepsInv(kind, Apply(x, steps[0]), y, steps[1..]);
    }
  }

  lemma ReachableInv(kind: Kind, x: System)
    requires Reachable(kind, x) && !kind.lateClock
    ensures Inv(x)
  {
    var steps :| Leads(kind, START, x, steps);
    RunKeepsInv(kind, START, x, steps);
  }

  /** ---------- What a skipped reload serves ---------- */

  /** However the statements of loads and rotations interleave and wherever they fail, as long as rotations are
      timely: a replica whose version is current serves every published key, and otherwise only access keys
      that have been expired. It serves exactly the published keys if and only if none was withdrawn since it
      read them. */
  lemma SkippingServesEveryKey(kind: Kind, x: System, r: nat)
    requires Reachable(kind, x) && !kind.lateClock
    requires r < |x.served| && Version(x.rows) <= x.served[r].cache.version
    ensures Published(x.rows) <= x.served[r].cache.published
    ensures x.served[r].cache.published == Published(x.rows) <==> !x.served[r].stale
    ensures forall kid :: kid in x.served[r].cache.published && kid !in Published(x.rows) ==>
      exists i :: 0 <= i < |x.rows| && x.rows[i].kid == kid && IsExpiredAccess(x.rows[i])
  {
    ReachableInv(kind, x);
    var c := x.served[r].cache;
    assert SnapshotInv(x.rows, x.withdrawn, x.served[r]);
    forall kid | kid in c.published && kid !in Published(x.rows)
      ensures exists i :: 0 <= i < |x.rows| && x.rows[i].kid == kid && IsExpiredAccess(x.rows[i])
    {
      assert IsAccessKid(x.rows, kid);
      var i :| 0 <= i < |x.rows| && x.rows[i].kid == kid && x.rows[i].keyType.Access?;
      assert IsExpiredAccess(x.rows[i]);
    }
  }

  predicate IsExpiredAccess(k: SigningKey) { k.keyType.Access? && k.status.Expired? }

  /** A published key that a replica's cache lacks although the cache looks current. */
  predicate HiddenFrom(c: Cache, rows: Rows, kid: Kid) { Skips(c, rows) && kid in Published(rows) && kid !in c.published }

  /** A freshly loaded cache misses the next access key rotated in if and only if there was a key to serve
      and the new one's `updated_at` is no later than the table's. */
  lemma LateClockHidesExactly(rows: Rows, k: SigningKey)
    requires k.keyType.Access? && k.status.Active? && forall i :: 0 <= i < |rows| ==> rows[i].kid != k.kid
    ensures HiddenFrom(Cache(Published(rows), Version(rows)), Rotated(rows, k), k.kid) <==>
            Published(rows) != {} && k.updated <= Version(rows)
  {
    var retired, after := Retired(rows, Access, Inactive), Rotated(rows, k);
    VersionOfRetired(rows, Access, Inactive);
    assert after[..|rows|] == retired && after[|rows|] == k;
    assert IsPublished(after[|rows|]);
  }

  /** In every run of the kind, a skipped reload serves exactly the published keys. */
  ghost predicate AllServesExact(kind: Kind) {
    forall x, r: nat ::
      Reachable(kind, x) && Permits(kind, x, Ask(r)) && ServesCached(x, r) ==>
        x.served[r].cache.published == Published(x.rows)
  }

  predicate Reliable(kind: Kind) { !kind.lateClock && (!kind.overlap || !kind.window) }

  /** One replica with one load at a time: a cache that would be served is not stale, it would not be served
      while a load is under way, and what a load holds is stale only by its own doing. */
  ghost predicate AloneInv(x: System) {
    && |x.served| <= 1
    && (forall k :: 0 <= k < |x.loads| - 1 ==> x.loads[k].phase.Ended?)
    && (|x.served| == 1 && ServesCached(x, 0) ==> !x.served[0].stale && AllEnded(x))
    && (forall l :: 0 <= l < |x.loads| && x.loads[l].phase.HasKeys? && x.loads[l].phase.held.stale ==> x.loads[l].phase.dirty)
  }

  /** A cache that is not served before a statement is not served after it, nor is any after a rotation. */
  lemma NotServedAfter(x: System, doer: Option<nat>, st: Statement)
    requires Inv(x) && |x.served| == 1 && Timely(x.rows, st)
    requires st.RotateTo? || !ServesCached(x, 0)
    ensures !ServesCached(Executed(x, doer, st), 0)
  {
    VersionAfter(x.rows, st);
    assert SnapshotInv(x.rows, x.withdrawn, x.served[0]);
  }

  lemma LoadsAfterExecute(x: System, doer: Option<nat>, st: Statement, l: nat)
    requires AloneInv(x) && MayExecute(x, doer, st) && l < |x.loads|
    ensures var before, after := x.loads[l].phase, Executed(x, doer, st).loads[l].phase;
      && (after.Ended? <==> before.Ended?)
      && (after.HasKeys? && after.held.stale ==> after.dirty)
  {
    if x.loads[l].phase.HasKeys? && Withdraws(x.rows, st) {
      assert l == |x.loads| - 1 && doer == Some(l);
    }
  }

  lemma ExecuteKeepsAlone(x: System, doer: Option<nat>, st: Statement)
    requires Inv(x) && AloneInv(x) && MayExecute(x, doer, st) && Timely(x.rows, st)
    ensures AloneInv(Executed(x, doer, st))
  {
    var y := Executed(x, doer, st);
    forall l | 0 <= l < |x.loads|
      ensures y.loads[l].phase.Ended? <==> x.loads[l].phase.Ended?
      ensures y.loads[l].phase.HasKeys? && y.loads[l].phase.held.stale ==> y.loads[l].phase.dirty
    {
      LoadsAfterExecute(x, doer, st, l);
    }
    if |x.served| == 1 {
      NotServedAfter(x, doer, st);
    }
  }

  lemma StoreKeepsAlone(x: System, l: nat)
    requires Inv(x) && AloneInv(x) && Enabled(x, Store(l))
    ensures AloneInv(Apply(x, Store(l)))
  {
    var y := Apply(x, Store(l));
    assert LoadInv(x, x.loads[l]);
    assert l == |x.loads| - 1 && !y.served[0].stale;
  }

  lemma LoadStepKeepsAlone(x: System, l: nat, phase: Phase)
    requires AloneInv(x) && l < |x.loads| && (!x.loads[l].phase.Ended? || phase.Ended?)
    requires phase.HasKeys? && phase.held.stale ==> phase.dirty
    ensures AloneInv(InPhase(x, l, phase))
  {
    var y := InPhase(x, l, phase);
    assert !x.loads[l].phase.Ended? ==> l == |x.loads| - 1;
    assert |x.served| == 1 ==> (ServesCached(y, 0) <==> ServesCached(x, 0));
  }

  lemma AskKeepsAlone(x: System, r: nat)
    requires AloneInv(x) && AllEnded(x) && r < |x.served|
    ensures AloneInv(Apply(x, Ask(r)))
  {
  }

  lemma StepKeepsAlone(kind: Kind, x: System, step: Step)
    requires Inv(x) && AloneInv(x) && !kind.overlap && !kind.lateClock && Permits(kind, x, step)
    ensures AloneInv(Apply(x, step))
  {
    match step
    case Boot => assert forall l :: 0 <= l < |x.loads| ==> LoadInv(x, x.loads[l]);
    case Execute(doer, st) => ExecuteKeepsAlone(x, doer, st);
    case Ask(r) => AskKeepsAlone(x, r);
    case AskAgain(l) => LoadStepKeepsAlone(x, l, Apply(x, step).loads[l].phase);
    case Fetch(l) => LoadStepKeepsAlone(x, l, Apply(x, step).loads[l].phase);
    case Store(l) => StoreKeepsAlone(x, l);
    case Drop(l) => LoadStepKeepsAlone(x, l, Ended);
  }

  lemma {:induction false} RunKeepsAlone(kind: Kind, x: System, y: System, steps: seq<Step>)
    requires Inv(x) && AloneInv(x) && !kind.overlap && !kind.lateClock && Leads(kind, x, y, steps)
    ensures AloneInv(y)
    decreases |steps|
  {
    if steps != [] {
      StepKeepsInv(x, steps[0]);
      StepKeepsAlone(kind, x, steps[0]);
      RunKeepsAlone(kind, Apply(x, steps[0]), y, steps[1..]);
    }
  }

  lemma ReliableIsExact(kind: Kind)
    requires Reliable(kind)
    ensures AllServesExact(kind)
  {
    forall x, r: nat | Reachable(kind, x) && Permits(kind, x, Ask(r)) && ServesCached(x, r)
      ensures x.served[r].cache.published == Published(x.rows)
    {
      ReachableInv(kind, x);
      assert SnapshotInv(x.rows, x.withdrawn, x.served[r]);
      if !kind.overlap {
        var steps :| Leads(kind, START, x, steps);
        RunKeepsAlone(kind, START, x, steps);
      }
    }
  }

  /** ---------- Runs ---------- */

  lemma {:induction false} RunsJoin(kind: Kind, x: System, y: System, z: System, first: seq<Step>, rest: seq<Step>)
    requires Leads(kind, x, y, first) && Leads(kind, y, z, rest)
    ensures Leads(kind, x, z, first + rest)
    decreases |first|
  {
    if first == [] {
      assert first + rest == rest;
    } else {
      RunsJoin(kind, Apply(x, first[0]), y, z, first[1..], rest);
      assert (first + rest)[1..] == first[1..] + rest;
    }
  }

  lemma LeadsOn(kind: Kind, x: System, y: System, z: System)
    requires LeadsTo(kind, x, y) && LeadsTo(kind, y, z)
    ensures LeadsTo(kind, x, z)
  {
    var first :| Leads(kind, x, y, first);
    var rest :| Leads(kind, y, z, rest);
    RunsJoin(kind, x, y, z, first, rest);
  }

  lemma OneStep(kind: Kind, x: System, step: Step)
    requires Permits(kind, x, step)
    ensures LeadsTo(kind, x, Apply(x, step))
  {
    assert Leads(kind, Apply(x, step), Apply(x, step), [step][1..]);
    assert Leads(kind, x, Apply(x, step), [step]);
  }

  lemma NoStep(kind: Kind, x: System)
    ensures LeadsTo(kind, x, x)
  {
    assert Leads(kind, x, x, []);
  }

  lemma ThenStep(kind: Kind, x: System, y: System, step: Step, z: System)
    requires LeadsTo(kind, x, y) && Permits(kind, y, step) && z == Apply(y, step)
    ensures LeadsTo(kind, x, z)
  {
    OneStep(kind, y, step);
    LeadsOn(kind, x, y, z);
  }

  /** ---------- The runs in which an expired or an outdated set is served ---------- */

  const KEY_ONE := SigningKey(1, Access, Active, 2, Some(2 + DAY), true)
  const KEY_TWO := SigningKey(2, Access, Active, 3, Some(3 + DAY), true)
  const LATE_KEY := SigningKey(3, Access, Active, 1, Some(1 + DAY), true)

  function OneKey(): Rows { [KEY_ONE] }

  lemma OneKeyFacts()
    ensures Rotated([], KEY_ONE) == OneKey() && Version(OneKey()) == 2 && Published(OneKey()) == {1}
  {
    assert OneKey()[..0] == [];
    PublishedAppend([], KEY_ONE);
    assert [] + [KEY_ONE] == OneKey();
  }

  const ONE_SERVED := Snapshot(Cache({1}, 2), false)

  /** Replica 0 has loaded the one key; with `more`, a second replica has booted. */
  function ServingOne(more: bool): System {
    System(OneKey(), if more then [ONE_SERVED, FRESH] else [ONE_SERVED], [Load(0, Ended)], false)
  }

  lemma Rotated0(kind: Kind, more: bool)
    requires more ==> kind.overlap
    ensures LeadsTo(kind, START, System(OneKey(), if more then [FRESH, FRESH] else [FRESH], [], false))
  {
    OneKeyFacts();
    var x1 := START.(served := [FRESH]);
    var x2 := START.(served := if more then [FRESH, FRESH] else [FRESH]);
    NoStep(kind, START);
    ThenStep(kind, START, START, Boot, x1);
    if more { ThenStep(kind, START, x1, Boot, x2); }
    var y := System(OneKey(), x2.served, [], false);
    assert Executed(x2, None, RotateTo(KEY_ONE)).served == x2.served;
    ThenStep(kind, START, x2, Execute(None, RotateTo(KEY_ONE)), y);
  }

  lemma FirstLoaded(kind: Kind, more: bool)
    requires more ==> kind.overlap
    ensures LeadsTo(kind, START, ServingOne(more))
  {
    OneKeyFacts();
    Rotated0(kind, more);
    var x := System(OneKey(), if more then [FRESH, FRESH] else [FRESH], [], false);
    var x1 := x.(loads := [Load(0, Asked(2))]);
    var x2 := x.(loads := [Load(0, HasKeys(ONE_SERVED, false))]);
    ThenStep(kind, START, x, Ask(0), x1);
    ThenStep(kind, START, x1, Fetch(0), x2);
    assert x.served[0 := ONE_SERVED] == ServingOne(more).served;
    ThenStep(kind, START, x2, Store(0), ServingOne(more));
  }

  /** A scheduled rotation with a late clock, which the one replica does not see. */
  lemma LateClockBreaksIt(kind: Kind)
    requires kind.lateClock
    ensures !AllServesExact(kind)
  {
    FirstLoaded(kind, false);
    OneKeyFacts();
    var x := ServingOne(false);
    var y := Apply(x, Execute(None, RotateTo(LATE_KEY)));
    OneStep(kind, x, Execute(None, RotateTo(LATE_KEY)));
    LeadsOn(kind, START, x, y);
    LateClockHidesExactly(OneKey(), LATE_KEY);
    assert y.served[0].cache == Cache({1}, 2) && y.rows == Rotated(OneKey(), LATE_KEY);
    assert ServesCached(y, 0) && Permits(kind, y, Ask(0));
  }

  /** Replica 1 is about to rotate the overdue key: it has loaded the keys and expired the active one. */
  function InWindow(): System {
    System(Retired(OneKey(), Access, Expired), [ONE_SERVED.(stale := true), FRESH.(stale := true)],
           [Load(0, Ended), Load(1, HasKeys(ONE_SERVED.(stale := true), true))], true)
  }

  lemma WindowFacts()
    ensures var rows := Retired(OneKey(), Access, Expired);
      && Version(rows) == 2 && Published(rows) == {} && Withdraws(OneKey(), ExpireActive(Access)) && rows != []
  {
    OneKeyFacts();
    VersionOfRetired(OneKey(), Access, Expired);
    assert Retired(OneKey(), Access, Expired) == [KEY_ONE.(status := Expired)];
  }

  lemma WindowOpens(kind: Kind)
    requires kind.overlap
    ensures LeadsTo(kind, START, InWindow())
  {
    FirstLoaded(kind, true);
    OneKeyFacts();
    WindowFacts();
    var x := ServingOne(true);
    var x1 := x.(loads := [Load(0, Ended), Load(1, Asked(2))]);
    var x2 := x.(loads := [Load(0, Ended), Load(1, HasKeys(ONE_SERVED, false))]);
    ThenStep(kind, START, x, Ask(1), x1);
    ThenStep(kind, START, x1, Fetch(1), x2);
    var expire := Execute(Some(1), ExpireActive(Access));
    var y := Apply(x2, expire);
    assert y.served == InWindow().served && y.loads == InWindow().loads;
    ThenStep(kind, START, x2, expire, InWindow());
  }

  /** Without any failure and with every clock in time: between one replica's expiry of the overdue key and its
      rotation, another replica skips its reload and serves the expired key. The rotation can still succeed. */
  lemma WindowBreaksIt(kind: Kind)
    requires kind.overlap && kind.window
    ensures !AllServesExact(kind)
    ensures Reachable(kind, InWindow()) && ServesCached(InWindow(), 0)
    ensures InWindow().served[0].cache.published != Published(InWindow().rows)
    ensures Permits(kind, InWindow(), Execute(Some(1), RotateTo(KEY_TWO)))
  {
    WindowOpens(kind);
    WindowFacts();
    assert 1 in ONE_SERVED.cache.published;
    assert ServesCached(InWindow(), 0) && Permits(kind, InWindow(), Ask(0));
  }

  /** In every interleaving of statements, with any failures, a skipped reload serves exactly the published
      keys, if and only if no rotation has a late clock and either there is one replica with one load at a
      time or no version is read between a withdrawal of a published key and the next rotation. */
  lemma ServesExactExactly(kind: Kind)
    ensures AllServesExact(kind) <==> Reliable(kind)
  {
    if Reliable(kind) {
      ReliableIsExact(kind);
    } else if kind.lateClock {
      LateClockBreaksIt(kind);
    } else {
      WindowBreaksIt(kind);
    }
  }
}
