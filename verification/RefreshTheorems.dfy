/**
 What the refresh-token protocol promises, over every run: revocation is final, reuse kills the lineage,
 tokens form one chain, and a replayed token is recognised for as long as its JWT is valid.
 */
module RefreshTheorems {
  import opened Wrappers
  import opened RefreshStore
  import opened RefreshLineage

  /** ---------- Revocation is final ---------- */

  /** From `x` to `y` nothing of lineage `sid` was revived: no release, no new member, no new usable record, no
      new entry in an index. */
  ghost predicate StaysDead(x: System, y: System, sid: Sid) {
    && sid in y.dead
    && (sid in y.chain <==> sid in x.chain) && (sid in x.chain ==> y.chain[sid] == x.chain[sid])
    && MembersOf(y.keys, sid) <= MembersOf(x.keys, sid)
    && Usable(y, sid) <= Usable(x, sid)
    && (sid in y.keys.sessions ==> sid in x.keys.sessions)
    && (forall user: User :: (user, sid) in y.keys.userIndex ==> (user, sid) in x.keys.userIndex)
  }

  /** The one way a lineage grows is a login or an OK rotation, and both leave revoked lineages alone. */
  lemma WeakenedStaysDead(x: System, y: System, sid: Sid)
    requires Weakened(x, y) && sid in x.dead
    ensures StaysDead(x, y, sid)
  {
    WeakenedShrinksUsable(x, y);
  }

  lemma GrownStaysDead(x: System, y: System, newJti: Jti, sid: Sid)
    requires RecordsMatch(x) && Grown(x, y, newJti) && sid in x.dead
    ensures StaysDead(x, y, sid)
  {
  }

  lemma StepStaysDead(x: System, step: Step, sid: Sid)
    requires Inv(x) && sid in x.dead
    ensures StaysDead(x, Apply(x, step), sid)
  {
    if Enabled(x, step) {
      match step {
        case Tick(to) => TickWeakens(x, to); WeakenedStaysDead(x, Apply(x, step), sid);
        case Login(jti, newSid, user, jkt, signedAt) =>
          LoginGrows(x, jti, newSid, user, jkt, signedAt);
          GrownStaysDead(x, Apply(x, step), jti, sid);
        case Refresh(jti, newJti, signedAt) => RefreshStaysDead(x, jti, newJti, signedAt, sid);
        case RevokeBegin(id, other) => RevokeBeginWeakens(x, id, other); WeakenedStaysDead(x, Apply(x, step), sid);
        case RevokeList(id) =>
        case RevokeOne(id, jti) =>
          assert RevokerMatches(x, x.revokers[id]);
          RevokeOneWeakens(x, id, jti);
          WeakenedStaysDead(x, Apply(x, step), sid);
        case _ =>
          assert RevokerMatches(x, x.revokers[step.id]);
          RevokeRestWeakens(x, step);
          WeakenedStaysDead(x, Apply(x, step), sid);
      }
    }
  }

  lemma RefreshStaysDead(x: System, jti: Jti, newJti: Jti, signedAt: int, sid: Sid)
    requires Inv(x) && Enabled(x, Refresh(jti, newJti, signedAt)) && sid in x.dead
    ensures StaysDead(x, Refreshed(x, jti, newJti, signedAt), sid)
  {
    match VerdictFor(x, jti, newJti, signedAt) {
      case Ok =>
        RefreshGrows(x, jti, newJti, signedAt);
        GrownStaysDead(x, Refreshed(x, jti, newJti, signedAt), newJti, sid);
      case Reused =>
        ReuseWeakens(x, jti, newJti, signedAt);
        WeakenedStaysDead(x, Refreshed(x, jti, newJti, signedAt), sid);
      case _ =>
    }
  }

  lemma {:induction false} RunStaysDead(x: System, steps: seq<Step>, sid: Sid)
    requires Inv(x) && sid in x.dead
    ensures StaysDead(x, Run(x, steps), sid)
    decreases |steps|
  {
    if steps != [] {
      StepStaysDead(x, steps[0], sid);
      StepKeepsInv(x, steps[0]);
      RunStaysDead(Apply(x, steps[0]), steps[1..], sid);
    }
  }

  /** No token of a lineage whose revocation has begun is ever rotated. */
  lemma DeadNeverRotates(x: System, jti: Jti, newJti: Jti, signedAt: int)
    requires Inv(x) && jti in x.claims && x.claims[jti].sid in x.dead
    ensures VerdictFor(x, jti, newJti, signedAt) != Ok
  {
    if jti in x.keys.tokens && x.keys.tokens[jti].Full? && x.keys.tokens[jti].status.Active? {
      assert RecordCovered(x.keys, jti);
    }
  }

  lemma DeadForGood(x: System, steps: seq<Step>, sid: Sid)
    requires Inv(x) && sid in x.dead
    ensures StaysDead(x, Run(x, steps), sid)
    ensures forall jti, newJti, signedAt ::
              jti in Run(x, steps).claims && Run(x, steps).claims[jti].sid == sid ==>
                VerdictFor(Run(x, steps), jti, newJti, signedAt) != Ok
  {
    RunStaysDead(x, steps, sid);
    RunKeepsInv(x, steps);
    var y := Run(x, steps);
    forall jti, newJti, signedAt | jti in y.claims && y.claims[jti].sid == sid
      ensures VerdictFor(y, jti, newJti, signedAt) != Ok
    {
      DeadNeverRotates(y, jti, newJti, signedAt);
    }
  }

  /** Once a lineage's first revoking HSET has run, whatever else runs and however it interleaves:
      its chain and member set grow no more and no rotation of it returns OK. */
  lemma RevocationIsFinal(x: System, steps: seq<Step>, sid: Sid)
    requires Reachable(x) && sid in x.dead
    ensures StaysDead(x, Run(x, steps), sid)
    ensures forall jti, newJti, signedAt ::
              jti in Run(x, steps).claims && Run(x, steps).claims[jti].sid == sid ==>
                VerdictFor(Run(x, steps), jti, newJti, signedAt) != Ok
  {
    ReachableInv(x);
    DeadForGood(x, steps, sid);
  }

  /** The last command of a revocation, if it succeeds, takes the lineage out of the list of sessions for good. */
  lemma SessionEntryGoes(x: System, id: nat, ok: bool, steps: seq<Step>)
    requires Reachable(x) && Enabled(x, RevokeUnindexSession(id, ok))
    ensures var sid, y := x.revokers[id].sid, Apply(x, RevokeUnindexSession(id, ok));
      && (sid in y.keys.sessions <==> sid in x.keys.sessions && !ok)
      && (ok ==> sid !in Run(y, steps).keys.sessions)
      && y.keys == x.keys.(sessions := y.keys.sessions) && y.revokers == x.revokers[id := Returned(sid)]
  {
    ReachableInv(x);
    assert RevokerMatches(x, x.revokers[id]);
    StepKeepsInv(x, RevokeUnindexSession(id, ok));
    RunStaysDead(Apply(x, RevokeUnindexSession(id, ok)), steps, x.revokers[id].sid);
  }

  /** When `RevokeLineage` returns nil, every live record of the lineage is revoked, now and ever after. */
  lemma NilReturnMeansRevoked(x: System, id: nat, steps: seq<Step>)
    requires Reachable(x) && id in x.revokers && x.revokers[id].Returned?
    ensures Usable(Run(x, steps), x.revokers[id].sid) == {}
  {
    ReachableInv(x);
    assert RevokerMatches(x, x.revokers[id]);
    RunStaysDead(x, steps, x.revokers[id].sid);
  }

  /** Presenting a consumed token revokes its whole lineage in that one step, and for good. */
  lemma ReuseRevokesLineage(x: System, jti: Jti, newJti: Jti, signedAt: int, steps: seq<Step>)
    requires Reachable(x) && Enabled(x, Refresh(jti, newJti, signedAt))
    requires jti in x.keys.tokens && x.keys.tokens[jti].Full? && x.keys.tokens[jti].status.Consumed?
    ensures var c := x.claims[jti];
            var y := Apply(x, Refresh(jti, newJti, signedAt));
            && RotateReply(x.keys, ArgsFor(x, jti, newJti, signedAt)) == Reply(Reused, Some(c.sid), Some(c.user))
            && c.sid !in y.keys.sessions && (c.user, c.sid) !in y.keys.userIndex
            && Usable(y, c.sid) == {} && StaysDead(y, Run(y, steps), c.sid)
            && forall j, j', t :: j in Run(y, steps).claims && Run(y, steps).claims[j].sid == c.sid ==>
                 VerdictFor(Run(y, steps), j, j', t) != Ok
  {
    ReachableInv(x);
    ReuseReply(x, jti, newJti, signedAt);
    ReuseRevokesAll(x, jti, newJti, signedAt);
    StepKeepsInv(x, Refresh(jti, newJti, signedAt));
    DeadForGood(Apply(x, Refresh(jti, newJti, signedAt)), steps, x.claims[jti].sid);
  }

  lemma ReuseReply(x: System, jti: Jti, newJti: Jti, signedAt: int)
    requires RecordsMatch(x) && jti in x.claims
    requires jti in x.keys.tokens && x.keys.tokens[jti].Full? && x.keys.tokens[jti].status.Consumed?
    ensures var c := x.claims[jti];
            var y := Refreshed(x, jti, newJti, signedAt);
            && RotateReply(x.keys, ArgsFor(x, jti, newJti, signedAt)) == Reply(Reused, Some(c.sid), Some(c.user))
            && c.sid !in y.keys.sessions && (c.user, c.sid) !in y.keys.userIndex
  {
  }

  /** The lineage marker and the member set expire no earlier than any record they must speak for. */
  lemma MarkersOutliveRecords(x: System, jti: Jti)
    requires Reachable(x) && jti in x.claims && jti in Usable(x, x.claims[jti].sid)
    ensures var sid := x.claims[jti].sid;
            && sid in x.keys.lineages && x.keys.lineages[sid].Full?
            && x.keys.tokens[jti].expireAt <= x.keys.lineages[sid].expireAt
            && sid in x.keys.members && jti in x.keys.members[sid].jtis
            && x.keys.tokens[jti].expireAt <= x.keys.members[sid].expireAt
  {
    ReachableInv(x);
    assert RecordCovered(x.keys, jti);
  }

  /** ---------- One chain per lineage ---------- */

  predicate IsActive(x: System, jti: Jti) {
    jti in x.keys.tokens && x.keys.tokens[jti].Full? && x.keys.tokens[jti].status.Active?
  }

  lemma OneActiveToken(x: System, j: Jti, k: Jti)
    requires Reachable(x) && IsActive(x, j) && IsActive(x, k)
    requires x.keys.tokens[j].body.sid == x.keys.tokens[k].body.sid
    ensures j == k
    ensures x.keys.tokens[j].body.sid in x.chain
    ensures |x.chain[x.keys.tokens[j].body.sid]| > 0
    ensures j == x.chain[x.keys.tokens[j].body.sid][|x.chain[x.keys.tokens[j].body.sid]| - 1]
  {
    ReachableInv(x);
    assert IsLast(x, j) && IsLast(x, k);
  }

  /** Each token was obtained by presenting the one before it, and no token was presented successfully twice. */
  lemma TokensFormChain(x: System, j: Jti)
    requires Reachable(x) && j in x.claims
    ensures var c := x.claims[j];
            && c.sid in x.chain && c.rank < |x.chain[c.sid]| && x.chain[c.sid][c.rank] == j
            && c.parent == (if c.rank == 0 then None else Some(x.chain[c.sid][c.rank - 1]))
            && forall k :: k in x.claims && x.claims[k].sid == c.sid ==> SameHolder(x.claims[k], c)
    ensures forall k :: k in x.claims && x.claims[k].parent.Some? && x.claims[k].parent == x.claims[j].parent ==> k == j
  {
    ReachableInv(x);
    var c := x.claims[j];
    assert ChainLink(x, c.sid, c.rank);
    forall k | k in x.claims && x.claims[k].sid == c.sid ensures SameHolder(x.claims[k], c) {
      assert ChainLink(x, c.sid, x.claims[k].rank);
    }
    forall k | k in x.claims && x.claims[k].parent.Some? && x.claims[k].parent == c.parent ensures k == j {
      var d := x.claims[k];
      assert ChainLink(x, d.sid, d.rank);
      assert ChainLink(x, d.sid, d.rank - 1) && ChainLink(x, c.sid, c.rank - 1);
    }
  }

  lemma StepKeepsOrigin(x: System, step: Step, sid: Sid)
    requires ChainsMatch(x) && sid in x.origin
    ensures sid in Apply(x, step).origin && Apply(x, step).origin[sid] == x.origin[sid]
  {
  }

  lemma {:induction false} OriginKept(x: System, steps: seq<Step>, sid: Sid)
    requires Inv(x) && sid in x.origin
    ensures sid in Run(x, steps).origin && Run(x, steps).origin[sid] == x.origin[sid]
    decreases |steps|
  {
    if steps != [] {
      StepKeepsInv(x, steps[0]);
      StepKeepsOrigin(x, steps[0], sid);
      OriginKept(Apply(x, steps[0]), steps[1..], sid);
    }
  }

  /** Session ordering is stable: while a lineage is not being revoked both indexes hold it, through any
      number of rotations, under the creation time of its first token. */
  lemma ScoresAreIssueTimes(x: System, jti: Jti, sid: Sid, user: User, jkt: Jkt, signedAt: int, steps: seq<Step>)
    requires Reachable(x) && Enabled(x, Login(jti, sid, user, jkt, signedAt))
    ensures var y := Run(Apply(x, Login(jti, sid, user, jkt, signedAt)), steps);
            && (sid in y.keys.sessions ==> y.keys.sessions[sid] == signedAt / 1000)
            && ((user, sid) in y.keys.userIndex ==> y.keys.userIndex[(user, sid)] == signedAt / 1000)
            && (sid !in y.dead ==> sid in y.keys.sessions && (user, sid) in y.keys.userIndex)
  {
    ReachableInv(x);
    var login := Login(jti, sid, user, jkt, signedAt);
    StepKeepsInv(x, login);
    var x' := Apply(x, login);
    OriginKept(x', steps, sid);
    RunKeepsInv(x', steps);
    ClaimsKept(x', steps, jti);
  }

  lemma {:induction false} ClaimsKept(x: System, steps: seq<Step>, jti: Jti)
    requires jti in x.claims
    ensures jti in Run(x, steps).claims && Run(x, steps).claims[jti] == x.claims[jti]
    decreases |steps|
  {
    if steps != [] {
      ClaimsKept(Apply(x, steps[0]), steps[1..], jti);
    }
  }

  /** ---------- A valid JWT always has its record ---------- */

  /** Every released JWT that has not expired has a record, which lasts as long as the JWT does. */
  ghost predicate JwtsRecorded(x: System) {
    forall j :: j in x.claims && x.keys.now < x.claims[j].exp ==>
      j in x.keys.tokens && (x.keys.tokens[j].Full? ==> x.claims[j].exp <= x.keys.tokens[j].expireAt)
  }

  lemma StepKeepsJwts(x: System, step: Step)
    requires Inv(x) && JwtsRecorded(x) && x.ttl % 1000 == 0
    ensures JwtsRecorded(Apply(x, step)) && Apply(x, step).ttl == x.ttl
  {
    if step.Refresh? && Enabled(x, step) {
      RefreshKeepsJwts(x, step.jti, step.newJti, step.signedAt);
    }
  }

  lemma RefreshKeepsJwts(x: System, jti: Jti, newJti: Jti, signedAt: int)
    requires RecordsMatch(x) && JwtsRecorded(x) && x.ttl % 1000 == 0 && Enabled(x, Refresh(jti, newJti, signedAt))
    ensures JwtsRecorded(Refreshed(x, jti, newJti, signedAt))
  {
  }

  lemma {:induction false} RunKeepsJwts(x: System, steps: seq<Step>)
    requires Inv(x) && JwtsRecorded(x) && x.ttl % 1000 == 0
    ensures JwtsRecorded(Run(x, steps)) && Run(x, steps).ttl == x.ttl
    decreases |steps|
  {
    if steps != [] {
      StepKeepsInv(x, steps[0]);
      StepKeepsJwts(x, steps[0]);
      RunKeepsJwts(Apply(x, steps[0]), steps[1..]);
    }
  }

  /** With a whole-second lifetime, a JWT that was already exchanged and is still valid is never unknown to
      the script: presenting it is seen as reuse, or as revoked. */
  lemma ReplayIsSeen(ttl: int, start: int, steps: seq<Step>, jti: Jti, newJti: Jti, signedAt: int)
    requires 1000 <= ttl && ttl % 1000 == 0
    requires var x := Run(Init(ttl, start), steps);
             && jti in x.claims && x.keys.now < x.claims[jti].exp
    ensures var x := Run(Init(ttl, start), steps);
            && VerdictFor(x, jti, newJti, signedAt) != NotFound
            && (!IsLast(x, jti) ==> VerdictFor(x, jti, newJti, signedAt) in {Reused, TokenRevoked})
  {
    RunKeepsInv(Init(ttl, start), steps);
    RunKeepsJwts(Init(ttl, start), steps);
    ReplayIsSeenIn(Run(Init(ttl, start), steps), jti, newJti, signedAt);
  }

  lemma ReplayIsSeenIn(x: System, jti: Jti, newJti: Jti, signedAt: int)
    requires ActiveIsLast(x) && JwtsRecorded(x) && jti in x.claims && x.keys.now < x.claims[jti].exp
    ensures VerdictFor(x, jti, newJti, signedAt) != NotFound
    ensures !IsLast(x, jti) ==> VerdictFor(x, jti, newJti, signedAt) in {Reused, TokenRevoked}
  {
  }

  ghost predicate RecordsOutliveJwts(ttl: int) {
    forall start, steps, jti ::
      var x := Run(Init(ttl, start), steps);
      jti in x.claims && x.keys.now < x.claims[jti].exp ==> jti in x.keys.tokens
  }

  /** With a fractional lifetime the key TTL is cut but the JWT can round up to a whole second beyond it. */
  lemma FractionalTtlLosesRecord(ttl: int)
    requires 1000 <= ttl && ttl % 1000 != 0
    ensures !RecordsOutliveJwts(ttl)
  {
    var start := 1000 - ttl % 1000;
    var steps := [Login(0, 0, 0, 0, start), Tick(start + KeyTtl(ttl))];
    var x0 := Init(ttl, start);
    var x1 := Apply(x0, steps[0]);
    assert x1 == LoggedIn(x0, 0, 0, 0, 0, start);
    var x2 := Apply(x1, steps[1]);
    assert Run(x2, []) == x2;
    assert steps[1..] == [steps[1]] && steps[1..][1..] == [];
    assert Run(x1, [steps[1]]) == x2;
    assert Run(x0, steps) == x2;
    assert 0 in x2.claims && x2.keys.now < x2.claims[0].exp && 0 !in x2.keys.tokens;
  }

  /** Records outlive their JWTs in every run exactly when the configured lifetime is whole seconds. */
  lemma WholeSecondsExactly(ttl: int)
    requires 1000 <= ttl
    ensures RecordsOutliveJwts(ttl) <==> ttl % 1000 == 0
  {
    if ttl % 1000 == 0 {
      forall start, steps, jti |
        var x := Run(Init(ttl, start), steps);
        jti in x.claims && x.keys.now < x.claims[jti].exp
        ensures jti in Run(Init(ttl, start), steps).keys.tokens
      {
        RunKeepsInv(Init(ttl, start), steps);
        RunKeepsJwts(Init(ttl, start), steps);
      }
    } else {
      FractionalTtlLosesRecord(ttl);
    }
  }

  /** ---------- What an undisturbed `RevokeLineage` leaves in the indexes ---------- */

  /** The per-user index entry goes exactly when the record of the first listed member still names its user;
      the expired record of an old member does not, and then the entry stays. */
  lemma UserIndexEntryGoes(x: System, jti: Jti, first: Option<Jti>)
    requires Reachable(x) && jti in x.claims
    requires (x.claims[jti].user, x.claims[jti].sid) in x.keys.userIndex
    requires first.Some? ==> first.value in MembersOf(x.keys, x.claims[jti].sid)
    ensures var c := x.claims[jti];
            var s := RevokedByCommands(x.keys, c.sid, first);
            && c.sid !in s.sessions
            && ((c.user, c.sid) !in s.userIndex <==>
                 first.Some? && first.value in x.keys.tokens && x.keys.tokens[first.value].Full?)
  {
    ReachableInv(x);
    SameUserAlongChain(x, jti, first);
  }

  lemma SameUserAlongChain(x: System, jti: Jti, first: Option<Jti>)
    requires Inv(x) && jti in x.claims
    requires first.Some? ==> first.value in MembersOf(x.keys, x.claims[jti].sid)
    ensures first.Some? && first.value in x.keys.tokens && x.keys.tokens[first.value].Full? ==>
              x.keys.tokens[first.value].body.user == x.claims[jti].user
  {
    var c := x.claims[jti];
    if first.Some? {
      assert MembersInChain(x, c.sid);
      assert ChainLink(x, c.sid, c.rank) && ChainLink(x, c.sid, x.claims[first.value].rank);
    }
  }

  /** What a revoker has listed are tokens of its lineage, and the user it has read is the lineage's. */
  ghost predicate RevokerKnows(x: System, r: Revoker) {
    && (r.Revoking? ==> forall j :: j in r.listed ==> j in x.claims && x.claims[j].sid == r.sid)
    && (r.Reading? && r.user.Some? ==> forall j :: j in x.claims && x.claims[j].sid == r.sid ==> x.claims[j].user == r.user.value)
  }

  ghost predicate RevokersKnow(x: System) { forall id :: id in x.revokers ==> RevokerKnows(x, x.revokers[id]) }

  lemma SameUser(x: System, j: Jti, k: Jti)
    requires Inv(x) && j in x.claims && k in x.claims && x.claims[j].sid == x.claims[k].sid
    ensures x.claims[j].user == x.claims[k].user
  {
    assert ChainLink(x, x.claims[j].sid, x.claims[j].rank) && ChainLink(x, x.claims[j].sid, x.claims[k].rank);
  }

  /** A dead lineage gets no further token. */
  lemma NoNewClaims(x: System, step: Step, sid: Sid)
    requires Inv(x) && sid in x.dead
    ensures forall j :: j in Apply(x, step).claims && Apply(x, step).claims[j].sid == sid ==> j in x.claims
    ensures forall j :: j in x.claims ==> j in Apply(x, step).claims && Apply(x, step).claims[j] == x.claims[j]
  {
    if step.Refresh? && Enabled(x, step) && x.claims[step.jti].sid == sid {
      DeadNeverRotates(x, step.jti, step.newJti, step.signedAt);
    }
  }

  lemma ListKnows(x: System, id: nat)
    requires Inv(x) && Enabled(x, RevokeList(id))
    ensures RevokerKnows(Apply(x, RevokeList(id)), Apply(x, RevokeList(id)).revokers[id])
  {
    var sid := x.revokers[id].sid;
    if sid in x.keys.members { assert MembersInChain(x, sid); }
  }

  lemma ReadKnows(x: System, id: nat, first: Jti, ok: bool)
    requires Inv(x) && RevokersKnow(x) && Enabled(x, RevokeRead(id, first, ok))
    ensures RevokerKnows(x, Apply(x, RevokeRead(id, first, ok)).revokers[id])
  {
    assert RevokerKnows(x, x.revokers[id]);
    if first in x.revokers[id].listed {
      forall j | j in x.claims && x.claims[j].sid == x.revokers[id].sid
        ensures x.claims[j].user == x.claims[first].user
      {
        SameUser(x, j, first);
      }
    }
  }

  /** A revoker's own step leaves it knowing what it says. */
  lemma OwnStepKnows(x: System, step: Step, id: nat)
    requires Inv(x) && RevokersKnow(x) && Enabled(x, step)
    requires id in Apply(x, step).revokers && (id !in x.revokers || Apply(x, step).revokers[id] != x.revokers[id])
    ensures RevokerKnows(Apply(x, step), Apply(x, step).revokers[id])
  {
    match step
    case RevokeList(_) => ListKnows(x, id);
    case RevokeOne(_, _) => assert RevokerKnows(x, x.revokers[id]);
    case RevokeRead(_, first, ok) => ReadKnows(x, id, first, ok);
    case _ =>
  }

  lemma StepKeepsKnowing(x: System, step: Step)
    requires Inv(x) && RevokersKnow(x)
    ensures RevokersKnow(Apply(x, step))
  {
    var y := Apply(x, step);
    forall id | id in y.revokers
      ensures RevokerKnows(y, y.revokers[id])
    {
      if id in x.revokers && y.revokers[id] == x.revokers[id] {
        assert RevokerKnows(x, x.revokers[id]) && x.revokers[id].sid in x.dead by {
          assert RevokerMatches(x, x.revokers[id]);
        }
        NoNewClaims(x, step, x.revokers[id].sid);
      } else {
        OwnStepKnows(x, step, id);
      }
    }
  }

  lemma {:induction false} RunKeepsKnowing(x: System, steps: seq<Step>)
    requires Inv(x) && RevokersKnow(x)
    ensures RevokersKnow(Run(x, steps))
    decreases |steps|
  {
    if steps != [] {
      StepKeepsInv(x, steps[0]);
      StepKeepsKnowing(x, steps[0]);
      RunKeepsKnowing(Apply(x, steps[0]), steps[1..]);
    }
  }

  /** However a revocation interleaves with everything else: its ZREM takes the lineage's per-user entry away
      if and only if the command succeeds and the revoker had read a user from the first listed member. */
  lemma UserEntryInAnyRun(x: System, id: nat, ok: bool, jti: Jti)
    requires Reachable(x) && Enabled(x, RevokeUnindexUser(id, ok))
    requires jti in x.claims && x.claims[jti].sid == x.revokers[id].sid
    requires (x.claims[jti].user, x.claims[jti].sid) in x.keys.userIndex
    ensures (x.claims[jti].user, x.claims[jti].sid) !in Apply(x, RevokeUnindexUser(id, ok)).keys.userIndex <==>
            ok && x.revokers[id].user.Some?
  {
    var ttl, start, steps :| 1000 <= ttl && x == Run(Init(ttl, start), steps);
    RunKeepsKnowing(Init(ttl, start), steps);
    assert RevokerKnows(x, x.revokers[id]);
  }

  /** A revoker that has read its user stays there until its own next command, whatever others do. */
  lemma {:induction false} ReadingKept(x: System, id: nat, steps: seq<Step>)
    requires id in x.revokers && x.revokers[id].Reading?
    requires forall k :: 0 <= k < |steps| ==> !(steps[k].RevokeUnindexUser? && steps[k].id == id)
    ensures id in Run(x, steps).revokers && Run(x, steps).revokers[id] == x.revokers[id]
    decreases |steps|
  {
    if steps != [] {
      assert forall k :: 0 <= k < |steps[1..]| ==> steps[1..][k] == steps[k + 1];
      ReadingKept(Apply(x, steps[0]), id, steps[1..]);
    }
  }

  lemma {:induction false} ReachableAfter(x: System, steps: seq<Step>)
    requires Reachable(x)
    ensures Reachable(Run(x, steps))
    decreases |steps|
  {
    if steps != [] {
      ReachableThen(x, steps[0]);
      ReachableAfter(Apply(x, steps[0]), steps[1..]);
    }
  }

  /** From reading the first member's record to the ZREM, through whatever happens in between: the ZREM takes
      the lineage's per-user entry away if and only if both commands succeed and, at the read, a first member
      was listed whose record existed in full. */
  lemma UserEntryGoesInAnyRun(x: System, id: nat, first: Jti, readOk: bool, steps: seq<Step>, zremOk: bool, jti: Jti)
    requires Reachable(x) && Enabled(x, RevokeRead(id, first, readOk))
    requires forall k :: 0 <= k < |steps| ==> !(steps[k].RevokeUnindexUser? && steps[k].id == id)
    requires jti in x.claims && x.claims[jti].sid == x.revokers[id].sid
    requires var y := Run(Apply(x, RevokeRead(id, first, readOk)), steps);
      (x.claims[jti].user, x.claims[jti].sid) in y.keys.userIndex
    ensures var y := Run(Apply(x, RevokeRead(id, first, readOk)), steps);
      (x.claims[jti].user, x.claims[jti].sid) !in Apply(y, RevokeUnindexUser(id, zremOk)).keys.userIndex <==>
        && readOk && zremOk && x.revokers[id].listed != {}
        && first in x.keys.tokens && x.keys.tokens[first].Full?
  {
    var read := Apply(x, RevokeRead(id, first, readOk));
    ReachableThen(x, RevokeRead(id, first, readOk));
    ReachableAfter(read, steps);
    ReadingKept(read, id, steps);
    ClaimsKept(read, steps, jti);
    UserEntryInAnyRun(Run(read, steps), id, zremOk, jti);
  }

  lemma RevokeOneMore(m: map<nat, Hash>, k: nat, ks: set<nat>)
    requires k in ks
    ensures SetAllRevoked(SetRevoked(m, k), ks - {k}) == SetAllRevoked(m, ks)
  {
    assert (ks - {k}) + {k} == ks;
  }

  function AllRevoked(x: System, id: nat): System
    requires id in x.revokers && x.revokers[id].Revoking?
  {
    var r := x.revokers[id];
    x.(keys := x.keys.(tokens := SetAllRevoked(x.keys.tokens, r.todo)), revokers := x.revokers[id := r.(todo := {})])
  }

  /** The revoker's loop over the members, with nothing in between. */
  lemma {:induction false} RevokeAll(x: System, id: nat) returns (steps: seq<Step>)
    requires id in x.revokers && x.revokers[id].Revoking?
    ensures Run(x, steps) == AllRevoked(x, id)
    decreases |x.revokers[id].todo|
  {
    var todo := x.revokers[id].todo;
    if todo == {} {
      steps := [];
      assert SetAllRevoked(x.keys.tokens, {}) == x.keys.tokens;
      assert x.revokers[id := x.revokers[id].(todo := {})] == x.revokers;
    } else {
      var j :| j in todo;
      var y := Apply(x, RevokeOne(id, j));
      RevokeOneMore(x.keys.tokens, j, todo);
      var rest := RevokeAll(y, id);
      steps := [RevokeOne(id, j)] + rest;
      assert steps[1..] == rest;
    }
  }

  /** After the member loop: read the first record, drop both index entries. */
  lemma FinishRevoking(x: System, id: nat, first: Option<Jti>) returns (steps: seq<Step>)
    requires id in x.revokers && x.revokers[id].Revoking? && x.revokers[id].todo == {}
    requires first.None? <==> x.revokers[id].listed == {}
    requires first.Some? ==> first.value in x.revokers[id].listed
    ensures var sid, t := x.revokers[id].sid, x.keys.tokens;
      Run(x, steps) == x.(
        keys := x.keys.(
          userIndex := if first.Some? && first.value in t && t[first.value].Full?
                       then x.keys.userIndex - {(t[first.value].body.user, sid)} else x.keys.userIndex,
          sessions := x.keys.sessions - {sid}),
        revokers := x.revokers[id := Returned(sid)])
  {
    var read := RevokeRead(id, if first.Some? then first.value else 0, true);
    var y := Apply(x, read);
    var z := Apply(y, RevokeUnindexUser(id, true));
    var w := Apply(z, RevokeUnindexSession(id, true));
    steps := [read, RevokeUnindexUser(id, true), RevokeUnindexSession(id, true)];
    assert steps[1..] == [RevokeUnindexUser(id, true), RevokeUnindexSession(id, true)];
    assert steps[1..][1..] == [RevokeUnindexSession(id, true)] && steps[1..][1..][1..] == [];
    assert Run(w, []) == w;
    assert Run(z, steps[1..][1..]) == w;
    assert Run(y, steps[1..]) == w;
  }

  /** `RevokeLineage` run undisturbed is a run of its separate commands, from the first HSET to nil. */
  lemma RevokeLineageIsRun(x: System, id: nat, sid: Sid, first: Option<Jti>) returns (steps: seq<Step>)
    requires id !in x.revokers
    requires first.None? <==> MembersOf(x.keys, sid) == {}
    requires first.Some? ==> first.value in MembersOf(x.keys, sid)
    ensures Run(x, steps).keys == RevokedByCommands(x.keys, sid, first)
    ensures id in Run(x, steps).revokers && Run(x, steps).revokers[id] == Returned(sid)
  {
    var x1 := Apply(x, RevokeBegin(id, sid));
    var x2 := Apply(x1, RevokeList(id));
    var begin := [RevokeBegin(id, sid), RevokeList(id)];
    assert begin[1..] == [RevokeList(id)] && begin[1..][1..] == [];
    assert Run(x1, begin[1..]) == Run(x2, []) == x2;
    var middle := RevokeAll(x2, id);
    var x3 := AllRevoked(x2, id);
    var end := FinishRevoking(x3, id, first);
    RunInTwoParts(x, begin, middle);
    RunInTwoParts(x, begin + middle, end);
    steps := begin + middle + end;
  }

  lemma ReachableThen(x: System, step: Step)
    requires Reachable(x)
    ensures Reachable(Apply(x, step))
  {
    var ttl, start, steps :| 1000 <= ttl && x == Run(Init(ttl, start), steps);
    RunInTwoParts(Init(ttl, start), steps, [step]);
    assert [step][1..] == [] && Run(Apply(x, step), []) == Apply(x, step);
  }

  /** A state with one lineage, of user 0, and these keys of it. */
  ghost predicate OneLineage(x: System, now: int, tokens: map<Jti, Hash>, listed: set<Jti>, until: int) {
    && x.ttl == 2000 && x.keys.now == now && x.claims.Keys == listed
    && (forall j :: j in listed ==> x.claims[j].sid == 0 && x.claims[j].user == 0 && x.claims[j].jkt == 0)
    && x.keys.tokens == tokens && x.keys.members == map[0 := MemberSet(listed, until)]
    && x.keys.lineages == map[0 := Full(Active, Body(0, 0, 0, 0), until)]
    && x.keys.userIndex == map[(0, 0) := 0]
  }

  function Record(status: Status, createdAt: int, until: int): Hash { Full(status, Body(0, 0, 0, createdAt), until) }

  lemma FirstLogin() returns (x: System)
    ensures Reachable(x) && OneLineage(x, 0, map[0 := Record(Active, 0, 2000)], {0}, 2000)
  {
    var init := Init(2000, 0);
    assert Run(init, []) == init;
    x := Apply(init, Login(0, 0, 0, 0, 0));
    ReachableThen(init, Login(0, 0, 0, 0, 0));
    assert MembersOf(init.keys, 0) + {0} == {0};
  }

  lemma FirstRefresh() returns (x: System)
    ensures Reachable(x)
    ensures OneLineage(x, 0, map[0 := Record(Consumed, 0, 2000), 1 := Record(Active, 0, 2000)], {0, 1}, 2000)
  {
    var w := FirstLogin();
    x := Apply(w, Refresh(0, 1, 0));
    ReachableThen(w, Refresh(0, 1, 0));
    assert VerdictFor(w, 0, 1, 0) == Ok;
    assert MembersOf(w.keys, 0) + {1} == {0, 1};
  }

  lemma OneSecondLater() returns (x: System)
    ensures Reachable(x)
    ensures OneLineage(x, 1000, map[0 := Record(Consumed, 0, 2000), 1 := Record(Active, 0, 2000)], {0, 1}, 2000)
  {
    var w := FirstRefresh();
    x := Apply(w, Tick(1000));
    ReachableThen(w, Tick(1000));
    assert ExpiredHashes(w.keys.tokens, 1000) == {} && ExpiredHashes(w.keys.lineages, 1000) == {};
    assert ExpiredMemberSets(w.keys.members, 1000) == {};
  }

  lemma SecondRefresh() returns (x: System)
    ensures Reachable(x)
    ensures OneLineage(x, 1000,
      map[0 := Record(Consumed, 0, 2000), 1 := Record(Consumed, 0, 3000), 2 := Record(Active, 1, 3000)], {0, 1, 2}, 3000)
  {
    var w := OneSecondLater();
    x := Apply(w, Refresh(1, 2, 1000));
    ReachableThen(w, Refresh(1, 2, 1000));
    assert VerdictFor(w, 1, 2, 1000) == Ok;
    assert MembersOf(w.keys, 0) + {2} == {0, 1, 2};
  }

  /** The first token's record has expired, its place in the member set has not. */
  lemma TwoSecondsLater() returns (x: System)
    ensures Reachable(x)
    ensures OneLineage(x, 2000, map[1 := Record(Consumed, 0, 3000), 2 := Record(Active, 1, 3000)], {0, 1, 2}, 3000)
  {
    var w := SecondRefresh();
    x := Apply(w, Tick(2000));
    ReachableThen(w, Tick(2000));
    assert ExpiredHashes(w.keys.tokens, 2000) == {0} && ExpiredHashes(w.keys.lineages, 2000) == {};
    assert ExpiredMemberSets(w.keys.members, 2000) == {};
  }

  /** The per-user entry can stay: a reachable state, and a first member, for which `RevokeLineage` returns
      nil and leaves it. */
  lemma UserIndexEntryCanStay()
    ensures exists x, first ::
      && Reachable(x) && 0 in x.claims && first in MembersOf(x.keys, 0)
      && (x.claims[0].user, 0) in x.keys.userIndex
      && (x.claims[0].user, 0) in RevokedByCommands(x.keys, 0, Some(first)).userIndex
  {
    var x := TwoSecondsLater();
    UserIndexEntryGoes(x, 0, Some(0));
  }
}
