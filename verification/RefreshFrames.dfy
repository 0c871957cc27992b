/**
 What a step of the refresh-token protocol writes, and what it leaves alone: which rotations succeed and with
 which keys, and that no lineage is touched by what is done to another.
 */
module RefreshFrames {
  import opened Wrappers
  import opened RefreshStore
  import opened RefreshLineage
  import opened RefreshTheorems

  /** ---------- Which rotations succeed, and what they write ---------- */

  /** The answer to any presented token, by its record and whether its lineage's revocation has begun. */
  lemma RotatesExactly(x: System, jti: Jti, newJti: Jti, signedAt: int)
    requires Reachable(x) && jti in x.claims
    ensures var v, t := VerdictFor(x, jti, newJti, signedAt), x.keys.tokens;
      && (v == Ok <==> IsActive(x, jti) && x.claims[jti].sid !in x.dead)
      && (v == LineageRevoked <==> IsActive(x, jti) && x.claims[jti].sid in x.dead)
      && (v == Reused <==> jti in t && t[jti].Full? && t[jti].status.Consumed?)
      && (v == TokenRevoked <==> jti in t && (t[jti].StatusOnly? || t[jti].status.Revoked?))
      && (v == NotFound <==> jti !in t)
  {
    ReachableInv(x);
    if IsActive(x, jti) { assert RecordCovered(x.keys, jti); }
  }

  /** A rotation that succeeds names the lineage and user of the presented JWT, consumes the token and makes
      its successor, both for a full lifetime from now, and keeps the lineage's first creation time. */
  lemma RotationWrites(x: System, jti: Jti, newJti: Jti, signedAt: int)
    requires Reachable(x) && Enabled(x, Refresh(jti, newJti, signedAt))
    requires IsActive(x, jti) && x.claims[jti].sid !in x.dead
    ensures var c, s, t := x.claims[jti], x.keys, Apply(x, Refresh(jti, newJti, signedAt)).keys;
      var until := s.now + x.ttl / 1000 * 1000;
      && RotateReply(s, ArgsFor(x, jti, newJti, signedAt)) == Reply(Ok, Some(c.sid), Some(c.user))
      && c.sid in x.origin && c.sid in s.members
      && jti in t.tokens && t.tokens[jti] == Full(Consumed, s.tokens[jti].body, until)
      && newJti in t.tokens && t.tokens[newJti] == Full(Active, Body(c.sid, c.user, c.jkt, signedAt / 1000), until)
      && c.sid in t.lineages && t.lineages[c.sid] == Full(Active, Body(c.sid, c.user, c.jkt, x.origin[c.sid]), until)
      && c.sid in t.members && t.members[c.sid] == MemberSet(s.members[c.sid].jtis + {newJti}, until)
      && c.sid in t.sessions && t.sessions[c.sid] == x.origin[c.sid]
      && (c.user, c.sid) in t.userIndex && t.userIndex[(c.user, c.sid)] == x.origin[c.sid]
  {
    ReachableInv(x);
    assert RecordCovered(x.keys, jti);
  }

  /** A login makes the lineage's first token, its hash and its member set, all for a full lifetime from now, and
      its two index entries under the time of issue in whole seconds. */
  lemma LoginWrites(x: System, jti: Jti, sid: Sid, user: User, jkt: Jkt, signedAt: int)
    requires Reachable(x) && Enabled(x, Login(jti, sid, user, jkt, signedAt))
    ensures var s, t := x.keys, Apply(x, Login(jti, sid, user, jkt, signedAt)).keys;
      var body, until := Body(sid, user, jkt, signedAt / 1000), s.now + x.ttl / 1000 * 1000;
      && jti in t.tokens && t.tokens[jti] == Full(Active, body, until)
      && sid in t.lineages && t.lineages[sid] == Full(Active, body, until)
      && sid in t.members && t.members[sid] == MemberSet({jti}, until)
      && sid in t.sessions && t.sessions[sid] == signedAt / 1000
      && (user, sid) in t.userIndex && t.userIndex[(user, sid)] == signedAt / 1000
  {
    ReachableInv(x);
    assert {} + {jti} == {jti};
  }

  /** ---------- Other lineages ---------- */

  /** The lineage a step acts on. */
  function Target(x: System, step: Step): Option<Sid> {
    match step
    case Tick(_) => None
    case Login(_, sid, _, _, _) => Some(sid)
    case Refresh(jti, _, _) => if jti in x.claims then Some(x.claims[jti].sid) else None
    case RevokeBegin(_, sid) => Some(sid)
    case _ => if step.id in x.revokers then Some(x.revokers[step.id].sid) else None
  }

  /** The tokens ever released of a lineage. */
  function TokensOf(x: System, sid: Sid): set<Jti> { set j | j in x.claims && x.claims[j].sid == sid }

  ghost predicate SameAt<K, V>(m: map<K, V>, n: map<K, V>, k: K) { (k in m <==> k in n) && (k in m ==> m[k] == n[k]) }

  ghost predicate SameTokens(js: set<Jti>, s: Keys, t: Keys) { forall j :: j in js ==> SameAt(s.tokens, t.tokens, j) }

  ghost predicate SameEntries(s: Keys, t: Keys, sid: Sid) {
    forall p: (User, Sid) :: p.1 == sid ==> SameAt(s.userIndex, t.userIndex, p)
  }

  /** The records of the tokens `js`, and every key of lineage `sid`, are in `t` exactly as in `s`. */
  ghost predicate Untouched(js: set<Jti>, s: Keys, t: Keys, sid: Sid) {
    && SameTokens(js, s, t) && SameEntries(s, t, sid)
    && SameAt(s.lineages, t.lineages, sid) && SameAt(s.members, t.members, sid) && SameAt(s.sessions, t.sessions, sid)
  }

  lemma RevokingSpares(s: Keys, other: Sid, user: User, js: set<Jti>, sid: Sid)
    requires other != sid && js !! MembersOf(s, other)
    ensures Untouched(js, s, RevokedWhole(s, other, user), sid)
  {
  }

  lemma AdvancingSpares(s: Keys, a: RotateArgs, js: set<Jti>, sid: Sid)
    requires a.jti in s.tokens && s.tokens[a.jti].Full? && a.sid != sid && a.jti !in js && a.newJti !in js
    ensures Untouched(js, s, Advanced(s, a), sid)
  {
  }

  lemma IssuingSpares(s: Keys, jti: Jti, b: Body, ttl: int, js: set<Jti>, sid: Sid)
    requires b.sid != sid && jti !in js
    ensures Untouched(js, s, Issued(s, jti, b, ttl), sid)
  {
  }

  lemma RefreshSpares(x: System, jti: Jti, newJti: Jti, signedAt: int, sid: Sid)
    requires Inv(x) && Enabled(x, Refresh(jti, newJti, signedAt)) && x.claims[jti].sid != sid
    ensures Untouched(TokensOf(x, sid), x.keys, Apply(x, Refresh(jti, newJti, signedAt)).keys, sid)
  {
    var a, other := ArgsFor(x, jti, newJti, signedAt), x.claims[jti].sid;
    match VerdictFor(x, jti, newJti, signedAt)
    case Ok => AdvancingSpares(x.keys, a, TokensOf(x, sid), sid);
    case Reused =>
      if other in x.keys.members { assert MembersInChain(x, other); }
      RevokingSpares(x.keys, other, x.keys.tokens[jti].body.user, TokensOf(x, sid), sid);
    case _ =>
  }

  lemma RevokeOneSpares(x: System, id: nat, jti: Jti, sid: Sid)
    requires Inv(x) && RevokersKnow(x) && Enabled(x, RevokeOne(id, jti)) && x.revokers[id].sid != sid
    ensures Untouched(TokensOf(x, sid), x.keys, Apply(x, RevokeOne(id, jti)).keys, sid)
  {
    assert RevokerKnows(x, x.revokers[id]) && RevokerMatches(x, x.revokers[id]);
  }

  lemma LoginSpares(x: System, jti: Jti, other: Sid, user: User, jkt: Jkt, signedAt: int, sid: Sid)
    requires Enabled(x, Login(jti, other, user, jkt, signedAt)) && other != sid
    ensures Untouched(TokensOf(x, sid), x.keys, Apply(x, Login(jti, other, user, jkt, signedAt)).keys, sid)
  {
    IssuingSpares(x.keys, jti, Body(other, user, jkt, signedAt / 1000), KeyTtl(x.ttl), TokensOf(x, sid), sid);
  }

  lemma CommandSpares(x: System, step: Step, sid: Sid)
    requires Enabled(x, step) && Target(x, step) != Some(sid)
    requires step.RevokeBegin? || step.RevokeList? || step.RevokeRead? || step.RevokeUnindexUser? || step.RevokeUnindexSession?
    ensures Untouched(TokensOf(x, sid), x.keys, Apply(x, step).keys, sid)
  {
  }

  lemma ReachableKnows(x: System)
    requires Reachable(x)
    ensures Inv(x) && RevokersKnow(x)
  {
    ReachableInv(x);
    var ttl, start, steps :| 1000 <= ttl && x == Run(Init(ttl, start), steps);
    RunKeepsKnowing(Init(ttl, start), steps);
  }

  lemma StepKeepsTokensOf(x: System, step: Step, sid: Sid)
    requires Target(x, step) != Some(sid)
    ensures TokensOf(Apply(x, step), sid) == TokensOf(x, sid)
  {
  }

  /** A login, a rotation, a reuse and every command of a revocation leave every other lineage exactly as it was:
      its token records, its hash, its member set and its entries in both indexes. */
  lemma StepSparesOthers(x: System, step: Step, sid: Sid)
    requires Reachable(x) && !step.Tick? && Target(x, step) != Some(sid)
    ensures Untouched(TokensOf(x, sid), x.keys, Apply(x, step).keys, sid)
  {
    ReachableKnows(x);
    if Enabled(x, step) {
      match step
      case Login(jti, other, user, jkt, signedAt) => LoginSpares(x, jti, other, user, jkt, signedAt, sid);
      case Refresh(jti, newJti, signedAt) => RefreshSpares(x, jti, newJti, signedAt, sid);
      case RevokeOne(id, jti) => RevokeOneSpares(x, id, jti, sid);
      case RevokeBegin(_, _) => CommandSpares(x, step, sid);
      case RevokeList(_) => CommandSpares(x, step, sid);
      case RevokeRead(_, _, _) => CommandSpares(x, step, sid);
      case RevokeUnindexUser(_, _) => CommandSpares(x, step, sid);
      case RevokeUnindexSession(_, _) => CommandSpares(x, step, sid);
    }
  }

  /** ---------- Over whole runs ---------- */

  /** No step of the run acts on `sid`. */
  ghost predicate LeavesAlone(x: System, steps: seq<Step>, sid: Sid)
    decreases |steps|
  {
    steps == [] || (Target(x, steps[0]) != Some(sid) && LeavesAlone(Apply(x, steps[0]), steps[1..], sid))
  }

  predicate HashExpires(h: Hash, to: int) { h.Full? && h.expireAt <= to }

  lemma ExpiryOnTop(s: Keys, to: int, later: int)
    requires to <= later
    ensures AfterExpiry(AfterExpiry(s, to), later) == AfterExpiry(s, later)
  {
    var t, u := AfterExpiry(s, to), AfterExpiry(s, later);
    var v := AfterExpiry(t, later);
    assert v.tokens == u.tokens && v.lineages == u.lineages && v.members == u.members;
  }

  lemma TokensExpireAlike(js: set<Jti>, s: Keys, t: Keys, to: int)
    requires SameTokens(js, s, t)
    ensures SameTokens(js, AfterExpiry(s, to), AfterExpiry(t, to))
  {
    forall j | j in js ensures SameAt(AfterExpiry(s, to).tokens, AfterExpiry(t, to).tokens, j) {
      assert SameAt(s.tokens, t.tokens, j);
    }
  }

  lemma ExpiryKeepsUntouched(js: set<Jti>, s: Keys, t: Keys, sid: Sid, to: int)
    requires Untouched(js, s, t, sid)
    ensures Untouched(js, AfterExpiry(s, to), AfterExpiry(t, to), sid)
  {
    TokensExpireAlike(js, s, t, to);
    forall p: (User, Sid) | p.1 == sid
      ensures SameAt(AfterExpiry(s, to).userIndex, AfterExpiry(t, to).userIndex, p)
    {
      assert SameAt(s.userIndex, t.userIndex, p);
    }
  }

  lemma UntouchedTwice(js: set<Jti>, s: Keys, t: Keys, u: Keys, sid: Sid)
    requires Untouched(js, s, t, sid) && Untouched(js, t, u, sid)
    ensures Untouched(js, s, u, sid)
  {
    forall j | j in js ensures SameAt(s.tokens, u.tokens, j) {
      assert SameAt(s.tokens, t.tokens, j) && SameAt(t.tokens, u.tokens, j);
    }
    forall p: (User, Sid) | p.1 == sid ensures SameAt(s.userIndex, u.userIndex, p) {
      assert SameAt(s.userIndex, t.userIndex, p) && SameAt(t.userIndex, u.userIndex, p);
    }
  }

  /** The keys as they would be at `to` had only time passed. */
  function Waited(s: Keys, to: int): Keys { AfterExpiry(s, to) }

  lemma StepIsWaiting(x: System, step: Step, sid: Sid, s: Keys)
    requires Reachable(x) && Target(x, step) != Some(sid) && s.now <= x.keys.now
    requires Untouched(TokensOf(x, sid), Waited(s, x.keys.now), x.keys, sid)
    ensures var y := Apply(x, step);
      && TokensOf(y, sid) == TokensOf(x, sid) && x.keys.now <= y.keys.now
      && Untouched(TokensOf(y, sid), Waited(s, y.keys.now), y.keys, sid)
  {
    var y := Apply(x, step);
    StepKeepsTokensOf(x, step, sid);
    if step.Tick? {
      if Enabled(x, step) {
        ExpiryKeepsUntouched(TokensOf(x, sid), Waited(s, x.keys.now), x.keys, sid, step.to);
        ExpiryOnTop(s, x.keys.now, step.to);
      }
    } else {
      StepSparesOthers(x, step, sid);
      UntouchedTwice(TokensOf(x, sid), Waited(s, x.keys.now), x.keys, y.keys, sid);
    }
  }

  lemma {:induction false} RunIsWaiting(x: System, steps: seq<Step>, sid: Sid, s: Keys)
    requires Reachable(x) && LeavesAlone(x, steps, sid) && s.now <= x.keys.now
    requires Untouched(TokensOf(x, sid), Waited(s, x.keys.now), x.keys, sid)
    ensures TokensOf(Run(x, steps), sid) == TokensOf(x, sid)
    ensures Untouched(TokensOf(x, sid), Waited(s, Run(x, steps).keys.now), Run(x, steps).keys, sid)
    decreases |steps|
  {
    if steps != [] {
      StepIsWaiting(x, steps[0], sid, s);
      ReachableThen(x, steps[0]);
      RunIsWaiting(Apply(x, steps[0]), steps[1..], sid, s);
    }
  }

  /** A lineage on which no step of a run acts has, at the end, exactly the keys it would have had if only time
      had passed, whatever was done to the others. */
  lemma OtherLineagesOnlyAge(x: System, steps: seq<Step>, sid: Sid)
    requires Reachable(x) && LeavesAlone(x, steps, sid)
    ensures TokensOf(Run(x, steps), sid) == TokensOf(x, sid)
    ensures Untouched(TokensOf(x, sid), AfterExpiry(x.keys, Run(x, steps).keys.now), Run(x, steps).keys, sid)
  {
    ReachableNothingDue(x);
    RunIsWaiting(x, steps, sid, x.keys);
  }

  /** No key is overdue in a reachable state. */
  ghost predicate NothingDue(s: Keys) {
    && (forall j :: j in s.tokens ==> !HashExpires(s.tokens[j], s.now))
    && (forall i :: i in s.lineages ==> !HashExpires(s.lineages[i], s.now))
    && (forall i :: i in s.members ==> s.now < s.members[i].expireAt)
  }

  lemma StepKeepsNothingDue(x: System, step: Step)
    requires Inv(x) && NothingDue(x.keys)
    ensures NothingDue(Apply(x, step).keys)
  {
    if Enabled(x, step) {
      match step
      case Tick(to) => ExpiryLeavesNothingDue(x.keys, to);
      case Refresh(jti, newJti, signedAt) => RefreshKeepsNothingDue(x, jti, newJti, signedAt);
      case _ =>
    }
  }

  lemma ExpiryLeavesNothingDue(s: Keys, to: int)
    ensures NothingDue(AfterExpiry(s, to))
  {
  }

  lemma AdvancingKeepsNothingDue(s: Keys, a: RotateArgs)
    requires NothingDue(s) && 0 < a.ttl && a.jti in s.tokens && s.tokens[a.jti].Full?
    ensures NothingDue(Advanced(s, a))
  {
  }

  lemma RevokingKeepsNothingDue(s: Keys, sid: Sid, user: User)
    requires NothingDue(s)
    ensures NothingDue(RevokedWhole(s, sid, user))
  {
  }

  lemma RefreshKeepsNothingDue(x: System, jti: Jti, newJti: Jti, signedAt: int)
    requires 1000 <= x.ttl && NothingDue(x.keys) && Enabled(x, Refresh(jti, newJti, signedAt))
    ensures NothingDue(Refreshed(x, jti, newJti, signedAt).keys)
  {
    match VerdictFor(x, jti, newJti, signedAt)
    case Ok => AdvancingKeepsNothingDue(x.keys, ArgsFor(x, jti, newJti, signedAt));
    case Reused => RevokingKeepsNothingDue(x.keys, x.keys.tokens[jti].body.sid, x.keys.tokens[jti].body.user);
    case _ =>
  }

  lemma {:induction false} RunKeepsNothingDue(x: System, steps: seq<Step>)
    requires Inv(x) && NothingDue(x.keys)
    ensures NothingDue(Run(x, steps).keys)
    decreases |steps|
  {
    if steps != [] {
      StepKeepsInv(x, steps[0]);
      StepKeepsNothingDue(x, steps[0]);
      RunKeepsNothingDue(Apply(x, steps[0]), steps[1..]);
    }
  }

  lemma NothingExpires(s: Keys)
    requires NothingDue(s)
    ensures AfterExpiry(s, s.now) == s
  {
    assert ExpiredHashes(s.tokens, s.now) == {} && ExpiredHashes(s.lineages, s.now) == {};
    assert ExpiredMemberSets(s.members, s.now) == {};
  }

  lemma ReachableNothingDue(x: System)
    requires Reachable(x)
    ensures AfterExpiry(x.keys, x.keys.now) == x.keys
  {
    var ttl, start, steps :| 1000 <= ttl && x == Run(Init(ttl, start), steps);
    RunKeepsNothingDue(Init(ttl, start), steps);
    NothingExpires(x.keys);
  }
}
