/**
 Every run of the refresh-token protocol: logins, rotations of any committed token at any time,
 any number of `RevokeLineage` calls cut into their separate Redis commands, and key expiry.
 A revoker that meets an error simply takes no further step.
 */
module RefreshLineage {
  import opened Wrappers
  import opened RefreshStore

  /** What a released refresh JWT says, with the token presented to obtain it and its place in the lineage. */
  datatype Claims = Claims(sid: Sid, user: User, jkt: Jkt, exp: int, parent: Option<Jti>, rank: nat)

  /** Where a `RevokeLineage` call is between two of its Redis commands. */
  datatype Revoker =
    | Marked(sid: Sid)                                        // lineage HSET done
    | Revoking(sid: Sid, listed: set<Jti>, todo: set<Jti>)    // SMEMBERS done
    | Reading(sid: Sid, user: Option<User>)                   // first record read
    | Unindexing(sid: Sid)                                    // per-user ZREM sent
    | Returned(sid: Sid)                                      // returned nil

  /** The server, and a record of what happened: `chain` lists each lineage's released tokens in order,
      `origin` the issue time of its first, `dead` the lineages whose revocation has begun. */
  datatype System = System(
    ttl: int,
    keys: Keys,
    claims: map<Jti, Claims>,
    chain: map<Sid, seq<Jti>>,
    origin: map<Sid, int>,
    dead: set<Sid>,
    usedSids: set<Sid>,
    revokers: map<nat, Revoker>)

  datatype Step =
    | Tick(to: int)
    | Login(jti: Jti, sid: Sid, user: User, jkt: Jkt, signedAt: int)
    | Refresh(jti: Jti, newJti: Jti, signedAt: int)
    | RevokeBegin(id: nat, sid: Sid)
    | RevokeList(id: nat)
    | RevokeOne(id: nat, jti: Jti)
    | RevokeRead(id: nat, first: Jti, ok: bool)
    | RevokeUnindexUser(id: nat, ok: bool)
    | RevokeUnindexSession(id: nat, ok: bool)

  function Init(ttl: int, start: int): System {
    System(ttl, Keys(start, map[], map[], map[], map[], map[]), map[], map[], map[], {}, {}, map[])
  }

  /** The `exp` claim: a NumericDate, so the expiry is cut to a whole second. */
  function Exp(signedAt: int, ttl: int): int { (signedAt + ttl) / 1000 * 1000 }

  /** The TTL handed to the scripts: `int64(ttl.Seconds())`, turned back into milliseconds. */
  function KeyTtl(ttl: int): int { ttl / 1000 * 1000 }

  function ArgsFor(x: System, jti: Jti, newJti: Jti, signedAt: int): RotateArgs
    requires jti in x.claims
  {
    var c := x.claims[jti];
    RotateArgs(jti, c.sid, newJti, c.user, c.jkt, signedAt / 1000, KeyTtl(x.ttl))
  }

  function VerdictFor(x: System, jti: Jti, newJti: Jti, signedAt: int): Verdict
    requires jti in x.claims
  {
    RotateReply(x.keys, ArgsFor(x, jti, newJti, signedAt)).verdict
  }

  predicate Enabled(x: System, step: Step) {
    match step
    case Tick(to) => x.keys.now <= to
    case Login(jti, sid, _, _, signedAt) => jti !in x.claims && sid !in x.usedSids && signedAt <= x.keys.now
    case Refresh(jti, newJti, signedAt) => jti in x.claims && newJti !in x.claims && signedAt <= x.keys.now
    case RevokeBegin(id, _) => id !in x.revokers
    case RevokeList(id) => id in x.revokers && x.revokers[id].Marked?
    case RevokeOne(id, jti) => id in x.revokers && x.revokers[id].Revoking? && jti in x.revokers[id].todo
    case RevokeRead(id, first, _) =>
      && id in x.revokers && x.revokers[id].Revoking? && x.revokers[id].todo == {}
      && (x.revokers[id].listed != {} ==> first in x.revokers[id].listed)
    case RevokeUnindexUser(id, _) => id in x.revokers && x.revokers[id].Reading?
    case RevokeUnindexSession(id, _) => id in x.revokers && x.revokers[id].Unindexing?
  }

  function LoggedIn(x: System, jti: Jti, sid: Sid, user: User, jkt: Jkt, signedAt: int): System {
    x.(keys := Issued(x.keys, jti, Body(sid, user, jkt, signedAt / 1000), KeyTtl(x.ttl)),
       claims := x.claims[jti := Claims(sid, user, jkt, Exp(signedAt, x.ttl), None, 0)],
       chain := x.chain[sid := [jti]],
       origin := x.origin[sid := signedAt / 1000],
       usedSids := x.usedSids + {sid})
  }

  function Refreshed(x: System, jti: Jti, newJti: Jti, signedAt: int): System
    requires jti in x.claims
  {
    var c := x.claims[jti];
    var y := x.(keys := Rotated(x.keys, ArgsFor(x, jti, newJti, signedAt)));
    match VerdictFor(x, jti, newJti, signedAt)
    case Ok =>
      var soFar := if c.sid in x.chain then x.chain[c.sid] else [];
      y.(claims := x.claims[newJti := Claims(c.sid, c.user, c.jkt, Exp(signedAt, x.ttl), Some(jti), |soFar|)],
         chain := x.chain[c.sid := soFar + [newJti]])
    case Reused => y.(dead := x.dead + {x.keys.tokens[jti].body.sid})
    case _ => y
  }

  /** One step; a step that is not enabled changes nothing, so every sequence of steps is a run. */
  function Apply(x: System, step: Step): System {
    if !Enabled(x, step) then x else
    match step
    case Tick(to) => x.(keys := AfterExpiry(x.keys, to))
    case Login(jti, sid, user, jkt, signedAt) => LoggedIn(x, jti, sid, user, jkt, signedAt)
    case Refresh(jti, newJti, signedAt) => Refreshed(x, jti, newJti, signedAt)
    case RevokeBegin(id, sid) =>
      x.(keys := x.keys.(lineages := SetRevoked(x.keys.lineages, sid)),
         dead := x.dead + {sid}, usedSids := x.usedSids + {sid},
         revokers := x.revokers[id := Marked(sid)])
    case RevokeList(id) =>
      var sid := x.revokers[id].sid;
      x.(revokers := x.revokers[id := Revoking(sid, MembersOf(x.keys, sid), MembersOf(x.keys, sid))])
    case RevokeOne(id, jti) =>
      var r := x.revokers[id];
      x.(keys := x.keys.(tokens := SetRevoked(x.keys.tokens, jti)),
         revokers := x.revokers[id := r.(todo := r.todo - {jti})])
    case RevokeRead(id, first, ok) =>
      var r := x.revokers[id];
      var user := if ok && r.listed != {} && first in x.keys.tokens && x.keys.tokens[first].Full?
                  then Some(x.keys.tokens[first].body.user) else None;
      x.(revokers := x.revokers[id := Reading(r.sid, user)])
    case RevokeUnindexUser(id, ok) =>
      var r := x.revokers[id];
      var index := if ok && r.user.Some? then x.keys.userIndex - {(r.user.value, r.sid)} else x.keys.userIndex;
      x.(keys := x.keys.(userIndex := index), revokers := x.revokers[id := Unindexing(r.sid)])
    case RevokeUnindexSession(id, ok) =>
      var sid := x.revokers[id].sid;
      var sessions := if ok then x.keys.sessions - {sid} else x.keys.sessions;
      x.(keys := x.keys.(sessions := sessions), revokers := x.revokers[id := Returned(sid)])
  }

  function Run(x: System, steps: seq<Step>): System
    decreases |steps|
  {
    if steps == [] then x else Run(Apply(x, steps[0]), steps[1..])
  }

  /** ---------- Invariants ---------- */

  /** The live token records of a lineage that are not revoked. */
  function Usable(x: System, sid: Sid): set<Jti> {
    set j | j in x.keys.tokens && x.keys.tokens[j].Full? && !x.keys.tokens[j].status.Revoked?
            && x.keys.tokens[j].body.sid == sid
  }

  /** A full record repeats the claims of its JWT, and its deadline lies ahead. */
  ghost predicate RecordsMatch(x: System) {
    && x.keys.tokens.Keys <= x.claims.Keys
    && forall j :: j in x.keys.tokens && x.keys.tokens[j].Full? ==>
         var b := x.keys.tokens[j].body; var c := x.claims[j];
         b.sid == c.sid && b.user == c.user && b.jkt == c.jkt && x.keys.now < x.keys.tokens[j].expireAt <= x.keys.now + KeyTtl(x.ttl)
  }

  /** Released tokens and chains list each other. */
  ghost predicate ChainsMatch(x: System) {
    && x.chain.Keys <= x.usedSids && x.chain.Keys == x.origin.Keys
    && (forall j :: j in x.claims ==>
         var c := x.claims[j]; c.sid in x.chain && c.rank < |x.chain[c.sid]| && x.chain[c.sid][c.rank] == j)
    && (forall i, k :: i in x.chain && 0 <= k < |x.chain[i]| ==> ChainLink(x, i, k))
  }

  ghost predicate ChainLink(x: System, sid: Sid, k: nat)
    requires sid in x.chain && k < |x.chain[sid]|
  {
    var j := x.chain[sid][k];
    && j in x.claims && x.claims[j].sid == sid && x.claims[j].rank == k
    && x.claims[j].parent == (if k == 0 then None else Some(x.chain[sid][k - 1]))
    && x.chain[sid][0] in x.claims && SameHolder(x.claims[j], x.claims[x.chain[sid][0]])
  }

  /** One user and one DPoP key hold a lineage. */
  ghost predicate SameHolder(c: Claims, d: Claims) { c.user == d.user && c.jkt == d.jkt }

  /** Only the last token of a chain can be active. */
  ghost predicate ActiveIsLast(x: System)
  {
    forall j :: j in x.keys.tokens && x.keys.tokens[j].Full? && x.keys.tokens[j].status.Active? ==>
      IsLast(x, j)
  }

  ghost predicate IsLast(x: System, j: Jti) {
    j in x.claims && x.claims[j].sid in x.chain && x.claims[j].rank + 1 == |x.chain[x.claims[j].sid]|
  }

  /** The lineage hash and the member set outlive every usable record, and the set lists it. */
  ghost predicate Covered(x: System) {
    forall j :: j in x.keys.tokens && x.keys.tokens[j].Full? && !x.keys.tokens[j].status.Revoked? ==>
      RecordCovered(x.keys, j)
  }

  ghost predicate RecordCovered(s: Keys, j: Jti)
    requires j in s.tokens && s.tokens[j].Full?
  {
    var sid, until := s.tokens[j].body.sid, s.tokens[j].expireAt;
    && sid in s.lineages && s.lineages[sid].Full? && until <= s.lineages[sid].expireAt
    && sid in s.members && j in s.members[sid].jtis && until <= s.members[sid].expireAt
  }

  /** A lineage hash is revoked exactly when its revocation has begun, and keeps the issue time. */
  ghost predicate LineagesMatch(x: System) {
    && x.keys.lineages.Keys <= x.usedSids && x.dead <= x.usedSids
    && (forall i :: i in x.keys.lineages ==> (x.keys.lineages[i].IsRevoked() <==> i in x.dead))
    && (forall i :: i in x.keys.lineages && x.keys.lineages[i].Full? ==>
         && i in x.origin && x.keys.lineages[i].body.createdAt == x.origin[i]
         && x.keys.lineages[i].body.sid == i && !x.keys.lineages[i].status.Consumed?)
  }

  ghost predicate MembersMatch(x: System) {
    forall i :: i in x.keys.members ==> i in x.chain && MembersInChain(x, i)
  }

  ghost predicate MembersInChain(x: System, sid: Sid)
    requires sid in x.keys.members
  {
    forall j :: j in x.keys.members[sid].jtis ==> j in x.claims && x.claims[j].sid == sid
  }

  /** Index scores are the issue times, and every lineage not being revoked is indexed. */
  ghost predicate IndexesMatch(x: System) {
    && (forall i :: i in x.keys.sessions ==> i in x.origin && x.keys.sessions[i] == x.origin[i])
    && (forall p :: p in x.keys.userIndex ==> p.1 in x.origin && x.keys.userIndex[p] == x.origin[p.1])
    && (forall i :: i in x.chain && i !in x.dead ==> i in x.keys.sessions)
    && (forall j :: j in x.claims && x.claims[j].sid !in x.dead ==>
         (x.claims[j].user, x.claims[j].sid) in x.keys.userIndex)
  }

  /** What each revoker still has to do covers every usable record of its lineage. */
  ghost predicate RevokersMatch(x: System) {
    forall id :: id in x.revokers ==> RevokerMatches(x, x.revokers[id])
  }

  ghost predicate RevokerMatches(x: System, r: Revoker) {
    && r.sid in x.dead
    && match r
       case Marked(_) => true
       case Revoking(_, listed, todo) =>
         todo <= listed && Usable(x, r.sid) <= todo && forall j :: j in listed ==> j in x.claims
       case _ => Usable(x, r.sid) == {}
  }

  ghost predicate Inv(x: System) {
    && 1000 <= x.ttl
    && RecordsMatch(x) && ChainsMatch(x) && ActiveIsLast(x) && Covered(x)
    && LineagesMatch(x) && MembersMatch(x) && IndexesMatch(x) && RevokersMatch(x)
  }

  /** ---------- Steps that only take away ---------- */

  /** Expiry and every revocation step: records disappear or become revoked, nothing new is usable. */
  ghost predicate Weakened(x: System, y: System) {
    && y.ttl == x.ttl && y.claims == x.claims && y.chain == x.chain && y.origin == x.origin
    && x.keys.now <= y.keys.now && x.usedSids <= y.usedSids && x.dead <= y.dead <= y.usedSids
    && y.keys.tokens.Keys <= x.claims.Keys
    && (forall j :: j in y.keys.tokens && y.keys.tokens[j].Full? ==> RecordWeakened(x, y, j))
    && y.keys.lineages.Keys <= x.keys.lineages.Keys + y.dead
    && (forall i :: i in y.keys.lineages ==>
         && (y.keys.lineages[i].IsRevoked() <==> i in y.dead)
         && (y.keys.lineages[i].Full? ==>
              i in x.keys.lineages && x.keys.lineages[i].Full? && !y.keys.lineages[i].status.Consumed?
              && y.keys.lineages[i].body == x.keys.lineages[i].body))
    && (forall i :: i in y.keys.members ==> i in x.keys.members && y.keys.members[i] == x.keys.members[i])
    && (forall i :: i in y.keys.sessions ==> i in x.keys.sessions && y.keys.sessions[i] == x.keys.sessions[i])
    && (forall i :: i in x.keys.sessions && i !in y.dead ==> i in y.keys.sessions)
    && (forall p :: p in y.keys.userIndex ==> p in x.keys.userIndex && y.keys.userIndex[p] == x.keys.userIndex[p])
    && (forall p :: p in x.keys.userIndex && p.1 !in y.dead ==> p in y.keys.userIndex)
  }

  ghost predicate RecordWeakened(x: System, y: System, j: Jti)
    requires j in y.keys.tokens && y.keys.tokens[j].Full?
  {
    var h := y.keys.tokens[j];
    && j in x.keys.tokens && x.keys.tokens[j].Full? && y.keys.now < h.expireAt
    && h.body == x.keys.tokens[j].body && h.expireAt == x.keys.tokens[j].expireAt
    && (h.status == x.keys.tokens[j].status || h.status.Revoked?)
  }

  lemma WeakenedKeepsRecords(x: System, y: System)
    requires RecordsMatch(x) && Weakened(x, y)
    ensures RecordsMatch(y)
  {
    assert forall j :: j in y.keys.tokens && y.keys.tokens[j].Full? ==> RecordWeakened(x, y, j);
  }

  lemma WeakenedKeepsChains(x: System, y: System)
    requires ChainsMatch(x) && Weakened(x, y)
    ensures ChainsMatch(y)
  {
    forall i, k | i in y.chain && 0 <= k < |y.chain[i]| ensures ChainLink(y, i, k) {
      assert ChainLink(x, i, k);
    }
  }

  lemma WeakenedKeepsLast(x: System, y: System)
    requires ActiveIsLast(x) && Weakened(x, y)
    ensures ActiveIsLast(y)
  {
    forall j | j in y.keys.tokens && y.keys.tokens[j].Full? && y.keys.tokens[j].status.Active?
      ensures IsLast(y, j)
    {
      assert RecordWeakened(x, y, j) && IsLast(x, j);
    }
  }

  lemma WeakenedShrinksUsable(x: System, y: System)
    requires Weakened(x, y)
    ensures forall sid :: Usable(y, sid) <= Usable(x, sid)
  {
    forall sid, j | j in Usable(y, sid) ensures j in Usable(x, sid) {
      assert RecordWeakened(x, y, j);
    }
  }

  lemma WeakenedKeepsTables(x: System, y: System)
    requires LineagesMatch(x) && MembersMatch(x) && IndexesMatch(x) && Weakened(x, y)
    ensures LineagesMatch(y) && MembersMatch(y) && IndexesMatch(y)
  {
    assert forall i :: i in y.keys.members ==> MembersInChain(x, i);
  }

  lemma WeakenedKeepsRevoker(x: System, y: System, r: Revoker)
    requires Weakened(x, y) && RevokerMatches(x, r)
    ensures RevokerMatches(y, r)
  {
    WeakenedShrinksUsable(x, y);
  }

  /** What is left to show of a weakening step once its revokers are unchanged except possibly one. */
  lemma WeakenedKeepsInv(x: System, y: System, id: nat)
    requires Inv(x) && Weakened(x, y) && Covered(y)
    requires forall i :: i in y.revokers && i != id ==> i in x.revokers && y.revokers[i] == x.revokers[i]
    requires id in y.revokers ==> RevokerMatches(y, y.revokers[id])
    ensures Inv(y)
  {
    WeakenedKeepsRecords(x, y);
    WeakenedKeepsChains(x, y);
    WeakenedKeepsLast(x, y);
    WeakenedKeepsTables(x, y);
    forall i | i in y.revokers && i != id ensures RevokerMatches(y, y.revokers[i]) {
      WeakenedKeepsRevoker(x, y, x.revokers[i]);
    }
  }

  lemma UnmovedRevokersKeepInv(x: System, y: System)
    requires Inv(x) && Weakened(x, y) && Covered(y) && y.revokers == x.revokers
    ensures Inv(y)
  {
    var id: nat := 0;
    if id in x.revokers { WeakenedKeepsRevoker(x, y, x.revokers[id]); }
    WeakenedKeepsInv(x, y, id);
  }

  lemma TickWeakens(x: System, to: int)
    requires RecordsMatch(x) && LineagesMatch(x) && x.keys.now <= to
    ensures Weakened(x, Apply(x, Tick(to)))
  {
  }

  lemma TickKeepsInv(x: System, to: int)
    requires Inv(x) && x.keys.now <= to
    ensures Inv(Apply(x, Tick(to)))
  {
    var y := Apply(x, Tick(to));
    forall j | j in y.keys.tokens && y.keys.tokens[j].Full? && !y.keys.tokens[j].status.Revoked?
      ensures RecordCovered(y.keys, j)
    {
      assert RecordCovered(x.keys, j);
    }
    TickWeakens(x, to);
    UnmovedRevokersKeepInv(x, y);
  }

  lemma RevokeBeginWeakens(x: System, id: nat, sid: Sid)
    requires RecordsMatch(x) && LineagesMatch(x) && Enabled(x, RevokeBegin(id, sid))
    ensures Weakened(x, Apply(x, RevokeBegin(id, sid)))
  {
  }

  lemma RevokeBeginKeepsInv(x: System, id: nat, sid: Sid)
    requires Inv(x) && Enabled(x, RevokeBegin(id, sid))
    ensures Inv(Apply(x, RevokeBegin(id, sid)))
  {
    var y := Apply(x, RevokeBegin(id, sid));
    RevokeBeginWeakens(x, id, sid);
    CoveredAfterRevoking(x, y);
    WeakenedKeepsInv(x, y, id);
  }

  /** No TTL moves, and no record or member set goes, when a step only revokes. */
  lemma CoveredAfterRevoking(x: System, y: System)
    requires Covered(x) && Weakened(x, y)
    requires forall i :: i in x.keys.lineages && x.keys.lineages[i].Full? ==>
      i in y.keys.lineages && y.keys.lineages[i].Full? && y.keys.lineages[i].expireAt == x.keys.lineages[i].expireAt
    requires y.keys.members == x.keys.members
    ensures Covered(y)
  {
    forall j | j in y.keys.tokens && y.keys.tokens[j].Full? && !y.keys.tokens[j].status.Revoked?
      ensures RecordCovered(y.keys, j)
    {
      assert RecordWeakened(x, y, j) && RecordCovered(x.keys, j);
    }
  }

  lemma RevokeListKeepsInv(x: System, id: nat)
    requires Inv(x) && Enabled(x, RevokeList(id))
    ensures Inv(Apply(x, RevokeList(id)))
  {
    var y := Apply(x, RevokeList(id));
    var sid := x.revokers[id].sid;
    assert Weakened(x, y);
    forall j | j in Usable(x, sid) ensures j in MembersOf(x.keys, sid) {
      assert RecordCovered(x.keys, j);
    }
    assert RevokerMatches(x, x.revokers[id]);
    assert sid in x.keys.members ==> MembersInChain(x, sid);
    CoveredAfterRevoking(x, y);
    WeakenedKeepsInv(x, y, id);
  }

  lemma RevokeOneKeepsInv(x: System, id: nat, jti: Jti)
    requires Inv(x) && Enabled(x, RevokeOne(id, jti))
    ensures Inv(Apply(x, RevokeOne(id, jti)))
  {
    var y := Apply(x, RevokeOne(id, jti));
    assert RevokerMatches(x, x.revokers[id]);
    RevokeOneWeakens(x, id, jti);
    CoveredAfterRevoking(x, y);
    WeakenedKeepsInv(x, y, id);
  }

  lemma RevokeOneWeakens(x: System, id: nat, jti: Jti)
    requires RecordsMatch(x) && LineagesMatch(x) && Enabled(x, RevokeOne(id, jti)) && jti in x.claims
    ensures Weakened(x, Apply(x, RevokeOne(id, jti)))
  {
  }

  lemma RevokeRestKeepsInv(x: System, step: Step)
    requires Inv(x) && Enabled(x, step)
    requires step.RevokeRead? || step.RevokeUnindexUser? || step.RevokeUnindexSession?
    ensures Inv(Apply(x, step))
  {
    var y := Apply(x, step);
    assert RevokerMatches(x, x.revokers[step.id]);
    RevokeRestWeakens(x, step);
    CoveredAfterRevoking(x, y);
    WeakenedKeepsInv(x, y, step.id);
  }

  lemma RevokeRestWeakens(x: System, step: Step)
    requires RecordsMatch(x) && LineagesMatch(x) && Enabled(x, step)
    requires step.RevokeRead? || step.RevokeUnindexUser? || step.RevokeUnindexSession?
    requires x.revokers[step.id].sid in x.dead
    ensures Weakened(x, Apply(x, step))
  {
  }

  lemma ReuseWeakens(x: System, jti: Jti, newJti: Jti, signedAt: int)
    requires RecordsMatch(x) && LineagesMatch(x) && MembersMatch(x) && Covered(x) && jti in x.claims
    requires VerdictFor(x, jti, newJti, signedAt) == Reused
    ensures x.keys.tokens[jti].body.sid == x.claims[jti].sid
    ensures Weakened(x, Refreshed(x, jti, newJti, signedAt))
  {
    assert RecordCovered(x.keys, jti);
    assert MembersInChain(x, x.claims[jti].sid);
  }

  /** Every usable record of the lineage is in its member set, so the script reaches all of them. */
  lemma ReuseRevokesAll(x: System, jti: Jti, newJti: Jti, signedAt: int)
    requires RecordsMatch(x) && Covered(x) && jti in x.claims
    requires VerdictFor(x, jti, newJti, signedAt) == Reused
    ensures x.claims[jti].sid in Refreshed(x, jti, newJti, signedAt).dead
    ensures Usable(Refreshed(x, jti, newJti, signedAt), x.claims[jti].sid) == {}
  {
    var y := Refreshed(x, jti, newJti, signedAt);
    forall j | j in y.keys.tokens && y.keys.tokens[j].Full? && y.keys.tokens[j].body.sid == x.claims[jti].sid
      ensures y.keys.tokens[j].status.Revoked?
    {
      if !x.keys.tokens[j].status.Revoked? {
        assert RecordCovered(x.keys, j);
      }
    }
  }

  lemma ReuseKeepsMarkers(x: System, jti: Jti, newJti: Jti, signedAt: int)
    requires jti in x.claims && VerdictFor(x, jti, newJti, signedAt) == Reused
    ensures var y := Refreshed(x, jti, newJti, signedAt);
            && y.keys.members == x.keys.members && y.revokers == x.revokers
            && forall i :: i in x.keys.lineages && x.keys.lineages[i].Full? ==>
                 i in y.keys.lineages && y.keys.lineages[i].Full?
                 && y.keys.lineages[i].expireAt == x.keys.lineages[i].expireAt
  {
  }

  lemma ReuseKeepsInv(x: System, jti: Jti, newJti: Jti, signedAt: int)
    requires Inv(x) && Enabled(x, Refresh(jti, newJti, signedAt))
    requires VerdictFor(x, jti, newJti, signedAt) == Reused
    ensures Inv(Refreshed(x, jti, newJti, signedAt))
  {
    var y := Refreshed(x, jti, newJti, signedAt);
    ReuseWeakens(x, jti, newJti, signedAt);
    ReuseKeepsMarkers(x, jti, newJti, signedAt);
    CoveredAfterRevoking(x, y);
    UnmovedRevokersKeepInv(x, y);
  }

  /** ---------- Steps that release a token ---------- */

  /** A login or a successful rotation: `newJti` is the one new record and its lineage's one active token. */
  ghost predicate Grown(x: System, y: System, newJti: Jti) {
    && HistoryGrown(x, y, newJti)
    && TokensGrown(x, y, newJti, y.claims[newJti], x.keys.now + KeyTtl(x.ttl))
    && TablesGrown(x, y, newJti, y.claims[newJti], x.keys.now + KeyTtl(x.ttl))
  }

  ghost predicate HistoryGrown(x: System, y: System, newJti: Jti) {
    && newJti !in x.claims && newJti in y.claims
    && y.ttl == x.ttl && y.dead == x.dead && y.revokers == x.revokers && y.keys.now == x.keys.now
    && var c := y.claims[newJti];
       var soFar := if c.sid in x.chain then x.chain[c.sid] else [];
    && c.sid !in x.dead && y.usedSids == x.usedSids + {c.sid}
    && y.claims == x.claims[newJti := c] && c.rank == |soFar|
    && c.parent == (if soFar == [] then None else Some(soFar[|soFar| - 1]))
    && (soFar != [] ==> soFar[0] in x.claims && SameHolder(c, x.claims[soFar[0]]))
    && y.chain == x.chain[c.sid := soFar + [newJti]]
    && c.sid in y.origin && y.origin == x.origin[c.sid := y.origin[c.sid]]
    && (c.sid in x.chain ==> y.origin == x.origin) && (c.sid !in x.chain ==> c.sid !in x.usedSids)
  }

  ghost predicate TokensGrown(x: System, y: System, newJti: Jti, c: Claims, until: int) {
    && y.keys.tokens.Keys == x.keys.tokens.Keys + {newJti}
    && y.keys.tokens[newJti].Full? && y.keys.tokens[newJti].status.Active?
    && BodyOf(y.keys.tokens[newJti].body, c) && y.keys.tokens[newJti].expireAt == until
    && (forall j :: j in x.keys.tokens ==>
         || y.keys.tokens[j] == x.keys.tokens[j]
         || (j in x.claims && x.claims[j].sid == c.sid && IsConsumedCopy(x.keys.tokens[j], y.keys.tokens[j], until)))
    && (forall j :: j in x.claims && x.claims[j].sid == c.sid && j in y.keys.tokens && y.keys.tokens[j].Full? ==>
         !y.keys.tokens[j].status.Active?)
  }

  ghost predicate TablesGrown(x: System, y: System, newJti: Jti, c: Claims, until: int) {
    && c.sid in y.keys.lineages && y.keys.lineages == x.keys.lineages[c.sid := y.keys.lineages[c.sid]]
    && y.keys.lineages[c.sid].Full? && y.keys.lineages[c.sid].status.Active?
    && y.keys.lineages[c.sid].expireAt == until && BodyOf(y.keys.lineages[c.sid].body, c)
    && c.sid in y.origin && y.keys.lineages[c.sid].body.createdAt == y.origin[c.sid]
    && y.keys.members == x.keys.members[c.sid := MemberSet(MembersOf(x.keys, c.sid) + {newJti}, until)]
    && y.keys.sessions == x.keys.sessions[c.sid := y.origin[c.sid]]
    && y.keys.userIndex == x.keys.userIndex[(c.user, c.sid) := y.origin[c.sid]]
  }

  ghost predicate BodyOf(b: Body, c: Claims) { b.sid == c.sid && b.user == c.user && b.jkt == c.jkt }

  ghost predicate IsConsumedCopy(before: Hash, after: Hash, until: int) {
    before.Full? && before.status.Active? && after == Full(Consumed, before.body, until)
  }

  lemma LoginGrows(x: System, jti: Jti, sid: Sid, user: User, jkt: Jkt, signedAt: int)
    requires Inv(x) && Enabled(x, Login(jti, sid, user, jkt, signedAt))
    ensures Grown(x, LoggedIn(x, jti, sid, user, jkt, signedAt), jti)
  {
    assert [] + [jti] == [jti];
  }

  /** The presented token is the last of its chain, so the new one is its only successor. */
  lemma RefreshGrows(x: System, jti: Jti, newJti: Jti, signedAt: int)
    requires Inv(x) && Enabled(x, Refresh(jti, newJti, signedAt))
    requires VerdictFor(x, jti, newJti, signedAt) == Ok
    ensures Grown(x, Refreshed(x, jti, newJti, signedAt), newJti)
  {
    RefreshGrowsHistory(x, jti, newJti, signedAt);
    RefreshGrowsTokens(x, jti, newJti, signedAt);
  }

  lemma RefreshGrowsHistory(x: System, jti: Jti, newJti: Jti, signedAt: int)
    requires RecordsMatch(x) && ChainsMatch(x) && ActiveIsLast(x) && Covered(x) && LineagesMatch(x)
    requires Enabled(x, Refresh(jti, newJti, signedAt))
    requires VerdictFor(x, jti, newJti, signedAt) == Ok
    ensures HistoryGrown(x, Refreshed(x, jti, newJti, signedAt), newJti)
    ensures TablesGrown(x, Refreshed(x, jti, newJti, signedAt), newJti,
                        Refreshed(x, jti, newJti, signedAt).claims[newJti], x.keys.now + KeyTtl(x.ttl))
  {
    assert RecordCovered(x.keys, jti) && IsLast(x, jti);
    assert ChainLink(x, x.claims[jti].sid, x.claims[jti].rank);
  }

  lemma RefreshGrowsTokens(x: System, jti: Jti, newJti: Jti, signedAt: int)
    requires RecordsMatch(x) && ChainsMatch(x) && ActiveIsLast(x)
    requires Enabled(x, Refresh(jti, newJti, signedAt))
    requires VerdictFor(x, jti, newJti, signedAt) == Ok
    ensures TokensGrown(x, Refreshed(x, jti, newJti, signedAt), newJti,
                        Refreshed(x, jti, newJti, signedAt).claims[newJti], x.keys.now + KeyTtl(x.ttl))
  {
    OnlyActiveToken(x, jti);
  }

  lemma OnlyActiveToken(x: System, jti: Jti)
    requires ChainsMatch(x) && ActiveIsLast(x)
    requires jti in x.keys.tokens && x.keys.tokens[jti].Full? && x.keys.tokens[jti].status.Active?
    ensures jti in x.claims
    ensures forall j ::
              (&& j in x.claims && x.claims[j].sid == x.claims[jti].sid
               && j in x.keys.tokens && x.keys.tokens[j].Full? && x.keys.tokens[j].status.Active?) ==> j == jti
  {
    assert IsLast(x, jti);
    forall j | j in x.claims && x.claims[j].sid == x.claims[jti].sid && j in x.keys.tokens
              && x.keys.tokens[j].Full? && x.keys.tokens[j].status.Active? ensures j == jti {
      assert IsLast(x, j);
    }
  }

  lemma GrownKeepsRecords(x: System, y: System, newJti: Jti)
    requires RecordsMatch(x) && 1000 <= x.ttl && HistoryGrown(x, y, newJti)
    requires TokensGrown(x, y, newJti, y.claims[newJti], x.keys.now + KeyTtl(x.ttl))
    ensures RecordsMatch(y)
  {
  }

  lemma GrownKeepsLast(x: System, y: System, newJti: Jti)
    requires RecordsMatch(x) && ChainsMatch(x) && ActiveIsLast(x) && HistoryGrown(x, y, newJti)
    requires TokensGrown(x, y, newJti, y.claims[newJti], x.keys.now + KeyTtl(x.ttl))
    ensures ActiveIsLast(y)
  {
    forall j | j in y.keys.tokens && y.keys.tokens[j].Full? && y.keys.tokens[j].status.Active?
      ensures IsLast(y, j)
    {
      if j != newJti {
        assert IsLast(x, j);
      }
    }
  }

  lemma GrownKeepsChains(x: System, y: System, newJti: Jti)
    requires ChainsMatch(x) && Grown(x, y, newJti)
    ensures ChainsMatch(y)
  {
    forall i, k | i in y.chain && 0 <= k < |y.chain[i]| ensures ChainLink(y, i, k) {
      if i in x.chain && k < |x.chain[i]| {
        assert ChainLink(x, i, k);
      }
    }
  }

  lemma GrownKeepsCovered(x: System, y: System, newJti: Jti)
    requires RecordsMatch(x) && Covered(x) && Grown(x, y, newJti)
    ensures Covered(y)
  {
    forall j | j in y.keys.tokens && y.keys.tokens[j].Full? && !y.keys.tokens[j].status.Revoked?
      ensures RecordCovered(y.keys, j)
    {
      if j != newJti && !x.keys.tokens[j].status.Revoked? {
        assert RecordCovered(x.keys, j);
      }
    }
  }

  lemma GrownKeepsLineages(x: System, y: System, newJti: Jti)
    requires ChainsMatch(x) && LineagesMatch(x) && Grown(x, y, newJti)
    ensures LineagesMatch(y)
  {
  }

  lemma GrownKeepsMembers(x: System, y: System, newJti: Jti)
    requires MembersMatch(x) && Grown(x, y, newJti)
    ensures MembersMatch(y)
  {
    forall i | i in y.keys.members ensures i in y.chain && MembersInChain(y, i) {
      if i in x.keys.members {
        assert MembersInChain(x, i);
      }
    }
  }

  lemma GrownKeepsIndexes(x: System, y: System, newJti: Jti)
    requires ChainsMatch(x) && IndexesMatch(x) && Grown(x, y, newJti)
    ensures IndexesMatch(y)
  {
  }

  lemma GrownKeepsRevokers(x: System, y: System, newJti: Jti)
    requires RecordsMatch(x) && RevokersMatch(x) && Grown(x, y, newJti)
    ensures RevokersMatch(y)
  {
    forall id | id in y.revokers ensures RevokerMatches(y, y.revokers[id]) {
      var sid := y.revokers[id].sid;
      assert RevokerMatches(x, x.revokers[id]);
      assert Usable(y, sid) <= Usable(x, sid);
    }
  }

  lemma GrownKeepsInv(x: System, y: System, newJti: Jti)
    requires Inv(x) && Grown(x, y, newJti)
    ensures Inv(y)
  {
    GrownKeepsRecords(x, y, newJti);
    GrownKeepsLast(x, y, newJti);
    GrownKeepsChains(x, y, newJti);
    GrownKeepsCovered(x, y, newJti);
    GrownKeepsLineages(x, y, newJti);
    GrownKeepsMembers(x, y, newJti);
    GrownKeepsIndexes(x, y, newJti);
    GrownKeepsRevokers(x, y, newJti);
  }

  /** ---------- All runs ---------- */

  lemma StepKeepsInv(x: System, step: Step)
    requires Inv(x)
    ensures Inv(Apply(x, step))
  {
    if Enabled(x, step) {
      match step {
        case Tick(to) => TickKeepsInv(x, to);
        case Login(jti, sid, user, jkt, signedAt) =>
          LoginGrows(x, jti, sid, user, jkt, signedAt);
          GrownKeepsInv(x, LoggedIn(x, jti, sid, user, jkt, signedAt), jti);
        case Refresh(jti, newJti, signedAt) => RefreshKeepsInv(x, jti, newJti, signedAt);
        case RevokeBegin(id, sid) => RevokeBeginKeepsInv(x, id, sid);
        case RevokeList(id) => RevokeListKeepsInv(x, id);
        case RevokeOne(id, jti) => RevokeOneKeepsInv(x, id, jti);
        case _ => RevokeRestKeepsInv(x, step);
      }
    }
  }

  lemma RefreshKeepsInv(x: System, jti: Jti, newJti: Jti, signedAt: int)
    requires Inv(x) && Enabled(x, Refresh(jti, newJti, signedAt))
    ensures Inv(Refreshed(x, jti, newJti, signedAt))
  {
    match VerdictFor(x, jti, newJti, signedAt) {
      case Ok =>
        RefreshGrows(x, jti, newJti, signedAt);
        GrownKeepsInv(x, Refreshed(x, jti, newJti, signedAt), newJti);
      case Reused => ReuseKeepsInv(x, jti, newJti, signedAt);
      case _ => assert Refreshed(x, jti, newJti, signedAt) == x;
    }
  }

  lemma {:induction false} RunKeepsInv(x: System, steps: seq<Step>)
    requires Inv(x)
    ensures Inv(Run(x, steps))
    decreases |steps|
  {
    if steps != [] {
      StepKeepsInv(x, steps[0]);
      RunKeepsInv(Apply(x, steps[0]), steps[1..]);
    }
  }

  lemma {:induction false} RunInTwoParts(x: System, first: seq<Step>, rest: seq<Step>)
    ensures Run(x, first + rest) == Run(Run(x, first), rest)
    decreases |first|
  {
    if first == [] {
      assert first + rest == rest;
    } else {
      assert (first + rest)[1..] == first[1..] + rest;
      RunInTwoParts(Apply(x, first[0]), first[1..], rest);
    }
  }

  ghost predicate Reachable(x: System) {
    exists ttl, start, steps :: 1000 <= ttl && x == Run(Init(ttl, start), steps)
  }

  lemma ReachableInv(x: System)
    requires Reachable(x)
    ensures Inv(x)
  {
    var ttl, start, steps :| 1000 <= ttl && x == Run(Init(ttl, start), steps);
    RunKeepsInv(Init(ttl, start), steps);
  }
}
