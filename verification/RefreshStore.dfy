/**
 The Redis keys of the refresh-token service and the scripts and command sequences that change them.

 An expired key is one that is no longer in its map: passing time removes it (`AfterExpiry`), so a
 script only ever sees live keys, which is what Redis guarantees while a script runs.
 Times are milliseconds of one monotone clock; `created_at` is in whole seconds, as in the scripts.
 */
module RefreshStore {
  import opened Wrappers

  type Jti = nat
  type Sid = nat
  type User = nat
  type Jkt = nat

  datatype Status = Active | Consumed | Revoked

  datatype Body = Body(sid: Sid, user: User, jkt: Jkt, createdAt: int)

  /** A token or lineage hash. `StatusOnly` is what HSET leaves when the key had expired:
      a lone `status = revoked` field, and no TTL. */
  datatype Hash =
    | Full(status: Status, body: Body, expireAt: int)
    | StatusOnly
  {
    predicate IsRevoked() { StatusOnly? || status.Revoked? }
  }

  datatype MemberSet = MemberSet(jtis: set<Jti>, expireAt: int)

  datatype Keys = Keys(
    now: int,
    tokens: map<Jti, Hash>,
    lineages: map<Sid, Hash>,
    members: map<Sid, MemberSet>,
    userIndex: map<(User, Sid), int>,
    sessions: map<Sid, int>)

  datatype Verdict = Ok | NotFound | TokenRevoked | LineageRevoked | Reused

  /** The array a script returns. A nil field ends a Lua array, so both ids are optional. */
  datatype Reply = Reply(verdict: Verdict, sid: Option<Sid>, user: Option<User>)

  datatype RotateArgs = RotateArgs(jti: Jti, sid: Sid, newJti: Jti, user: User, jkt: Jkt, createdAt: int, ttl: int)

  /** HSET key status revoked: an existing hash keeps its other fields and its TTL. */
  function SetRevoked(m: map<nat, Hash>, k: nat): map<nat, Hash> {
    m[k := if k in m && m[k].Full? then m[k].(status := Revoked) else StatusOnly]
  }

  /** The effect of `SetRevoked` on every key of `ks`, in any order. */
  function SetAllRevoked(m: map<nat, Hash>, ks: set<nat>): map<nat, Hash> {
    map k | k in m.Keys + ks ::
      if k !in ks then m[k] else if k in m && m[k].Full? then m[k].(status := Revoked) else StatusOnly
  }

  function MembersOf(s: Keys, sid: Sid): set<Jti> {
    if sid in s.members then s.members[sid].jtis else {}
  }

  function ExpiredHashes(m: map<nat, Hash>, to: int): set<nat> {
    set k | k in m && m[k].Full? && m[k].expireAt <= to
  }

  function ExpiredMemberSets(m: map<Sid, MemberSet>, to: int): set<Sid> {
    set k | k in m && m[k].expireAt <= to
  }

  /** Every key whose deadline has come is gone. */
  function AfterExpiry(s: Keys, to: int): Keys {
    s.(now := to,
       tokens := s.tokens - ExpiredHashes(s.tokens, to),
       lineages := s.lineages - ExpiredHashes(s.lineages, to),
       members := s.members - ExpiredMemberSets(s.members, to))
  }

  function RotateReply(s: Keys, a: RotateArgs): Reply {
    if a.jti !in s.tokens then Reply(NotFound, None, None)
    else match s.tokens[a.jti]
      case StatusOnly => Reply(TokenRevoked, None, None)
      case Full(Revoked, b, _) => Reply(TokenRevoked, Some(b.sid), Some(b.user))
      case Full(Consumed, b, _) => Reply(Reused, Some(b.sid), Some(b.user))
      case Full(Active, b, _) =>
        if a.sid in s.lineages && s.lineages[a.sid].IsRevoked() then Reply(LineageRevoked, Some(b.sid), Some(b.user))
        else Reply(Ok, Some(b.sid), Some(a.user))
  }

  function RevokedWhole(s: Keys, sid: Sid, user: User): Keys {
    s.(lineages := SetRevoked(s.lineages, sid),
       tokens := SetAllRevoked(s.tokens, MembersOf(s, sid)),
       userIndex := s.userIndex - {(user, sid)},
       sessions := s.sessions - {sid})
  }

  function Advanced(s: Keys, a: RotateArgs): Keys
    requires a.jti in s.tokens && s.tokens[a.jti].Full?
  {
    var cur := s.tokens[a.jti];
    var until := s.now + a.ttl;
    var origin := if a.sid in s.lineages && s.lineages[a.sid].Full? then s.lineages[a.sid].body.createdAt
                  else cur.body.createdAt;
    s.(tokens := s.tokens
         [a.jti := Full(Consumed, cur.body, until)]
         [a.newJti := Full(Active, Body(a.sid, a.user, a.jkt, a.createdAt), until)],
       lineages := s.lineages[a.sid := Full(Active, Body(a.sid, a.user, a.jkt, origin), until)],
       members := s.members[a.sid := MemberSet(MembersOf(s, a.sid) + {a.newJti}, until)],
       userIndex := s.userIndex[(a.user, a.sid) := origin],
       sessions := s.sessions[a.sid := origin])
  }

  function Rotated(s: Keys, a: RotateArgs): Keys {
    match RotateReply(s, a).verdict
    case Ok => Advanced(s, a)
    case Reused => RevokedWhole(s, s.tokens[a.jti].body.sid, s.tokens[a.jti].body.user)
    case _ => s
  }

  function Issued(s: Keys, jti: Jti, b: Body, ttl: int): Keys {
    var until := s.now + ttl;
    s.(tokens := s.tokens[jti := Full(Active, b, until)],
       lineages := s.lineages[b.sid := Full(Active, b, until)],
       members := s.members[b.sid := MemberSet(MembersOf(s, b.sid) + {jti}, until)],
       userIndex := s.userIndex[(b.user, b.sid) := b.createdAt],
       sessions := s.sessions[b.sid := b.createdAt])
  }

  /** `RevokeLineage` run with nothing in between; `first` is the member SMEMBERS listed first. */
  function RevokedByCommands(s: Keys, sid: Sid, first: Option<Jti>): Keys {
    var tokens := SetAllRevoked(s.tokens, MembersOf(s, sid));
    s.(lineages := SetRevoked(s.lineages, sid),
       tokens := tokens,
       userIndex := if first.Some? && first.value in tokens && tokens[first.value].Full?
                    then s.userIndex - {(tokens[first.value].body.user, sid)} else s.userIndex,
       sessions := s.sessions - {sid})
  }

  /** One Redis server, with the scripts and the command sequence that run against it. */
  class Redis {
    var now: int
    var tokens: map<Jti, Hash>
    var lineages: map<Sid, Hash>
    var members: map<Sid, MemberSet>
    var userIndex: map<(User, Sid), int>
    var sessions: map<Sid, int>

    ghost function Contents(): Keys
      reads this
    {
      Keys(now, tokens, lineages, members, userIndex, sessions)
    }

    constructor (start: int)
      ensures Contents() == Keys(start, map[], map[], map[], map[], map[])
    {
      now, tokens, lineages := start, map[], map[];
      members, userIndex, sessions := map[], map[], map[];
    }

    method Expire(to: int)
      modifies this
      ensures Contents() == AfterExpiry(old(Contents()), to)
    {
      now := to;
      tokens := tokens - (set k | k in tokens && tokens[k].Full? && tokens[k].expireAt <= to);
      lineages := lineages - (set k | k in lineages && lineages[k].Full? && lineages[k].expireAt <= to);
      members := members - (set k | k in members && members[k].expireAt <= to);
    }

    method HSetTokenRevoked(jti: Jti)
      modifies this`tokens
      ensures tokens == SetRevoked(old(tokens), jti)
    {
      if jti in tokens && tokens[jti].Full? {
        tokens := tokens[jti := tokens[jti].(status := Revoked)];
      } else {
        tokens := tokens[jti := StatusOnly];
      }
    }

    method HSetLineageRevoked(sid: Sid)
      modifies this`lineages
      ensures lineages == SetRevoked(old(lineages), sid)
    {
      if sid in lineages && lineages[sid].Full? {
        lineages := lineages[sid := lineages[sid].(status := Revoked)];
      } else {
        lineages := lineages[sid := StatusOnly];
      }
    }

    method SMembers(sid: Sid) returns (jtis: set<Jti>)
      ensures jtis == MembersOf(Contents(), sid)
    {
      jtis := if sid in members then members[sid].jtis else {};
    }

    method SAdd(sid: Sid, jti: Jti, ttl: int)
      modifies this`members
      ensures members == old(members)[sid := MemberSet(MembersOf(old(Contents()), sid) + {jti}, now + ttl)]
    {
      if sid in members {
        members := members[sid := MemberSet(members[sid].jtis + {jti}, now + ttl)];
      } else {
        assert {} + {jti} == {jti};
        members := members[sid := MemberSet({jti}, now + ttl)];
      }
    }

    /** The loop both the reuse branch and `RevokeLineage` run over the members. */
    method RevokeTokens(jtis: set<Jti>)
      modifies this`tokens
      ensures tokens == SetAllRevoked(old(tokens), jtis)
    {
      var todo := jtis;
      while todo != {}
        invariant todo <= jtis
        invariant tokens == SetAllRevoked(old(tokens), jtis - todo)
      {
        var jti :| jti in todo;
        HSetTokenRevoked(jti);
        todo := todo - {jti};
      }
      assert jtis - todo == jtis;
    }

    /** The reuse branch of the rotation script. */
    method RevokeWhole(sid: Sid, user: User)
      modifies this
      ensures Contents() == RevokedWhole(old(Contents()), sid, user)
    {
      HSetLineageRevoked(sid);
      var jtis := SMembers(sid);
      RevokeTokens(jtis);
      userIndex := userIndex - {(user, sid)};
      sessions := sessions - {sid};
    }

    /** The success branch of the rotation script. */
    method Advance(a: RotateArgs)
      requires a.jti in tokens && tokens[a.jti].Full?
      modifies this
      ensures Contents() == Advanced(old(Contents()), a)
    {
      var cur := tokens[a.jti];
      var lineageCreatedAt := cur.body.createdAt;
      if a.sid in lineages && lineages[a.sid].Full? {
        lineageCreatedAt := lineages[a.sid].body.createdAt;
      }
      tokens := tokens[a.jti := cur.(status := Consumed)];
      tokens := tokens[a.jti := tokens[a.jti].(expireAt := now + a.ttl)];
      tokens := tokens[a.newJti := Full(Active, Body(a.sid, a.user, a.jkt, a.createdAt), now + a.ttl)];
      lineages := lineages[a.sid := Full(Active, Body(a.sid, a.user, a.jkt, lineageCreatedAt), now + a.ttl)];
      SAdd(a.sid, a.newJti, a.ttl);
      userIndex := userIndex[(a.user, a.sid) := lineageCreatedAt];
      sessions := sessions[a.sid := lineageCreatedAt];
    }

    /** `rotateRefreshTokenScript`. */
    method Rotate(a: RotateArgs) returns (reply: Reply)
      modifies this
      ensures reply == RotateReply(old(Contents()), a)
      ensures Contents() == Rotated(old(Contents()), a)
      ensures reply.verdict == Reused ==> reply.sid.Some? && forall j ::
        j in old(tokens) && j !in MembersOf(old(Contents()), reply.sid.value) ==> j in tokens && tokens[j] == old(tokens)[j]
    {
      if a.jti !in tokens {
        return Reply(NotFound, None, None);
      }
      var cur := tokens[a.jti];
      if cur.StatusOnly? {
        return Reply(TokenRevoked, None, None);
      }
      if cur.status == Revoked {
        return Reply(TokenRevoked, Some(cur.body.sid), Some(cur.body.user));
      }
      if cur.status == Consumed {
        RevokeWhole(cur.body.sid, cur.body.user);
        return Reply(Reused, Some(cur.body.sid), Some(cur.body.user));
      }
      if a.sid in lineages && lineages[a.sid].IsRevoked() {
        return Reply(LineageRevoked, Some(cur.body.sid), Some(cur.body.user));
      }
      Advance(a);
      return Reply(Ok, Some(cur.body.sid), Some(a.user));
    }

    /** `issueRefreshTokenScript`. */
    method Issue(jti: Jti, b: Body, ttl: int)
      modifies this
      ensures Contents() == Issued(old(Contents()), jti, b, ttl)
    {
      tokens := tokens[jti := Full(Active, b, now + ttl)];
      lineages := lineages[b.sid := Full(Active, b, now + ttl)];
      SAdd(b.sid, jti, ttl);
      userIndex := userIndex[(b.user, b.sid) := b.createdAt];
      sessions := sessions[b.sid := b.createdAt];
    }

    /** `RevokeLineage` on a healthy Redis with no other client; the interleaved runs are in `RefreshLineage`. */
    method RevokeLineage(sid: Sid) returns (ghost first: Option<Jti>)
      modifies this
      ensures first.None? <==> MembersOf(old(Contents()), sid) == {}
      ensures first.Some? ==> first.value in MembersOf(old(Contents()), sid)
      ensures Contents() == RevokedByCommands(old(Contents()), sid, first)
    {
      first := None;
      HSetLineageRevoked(sid);
      var jtis := SMembers(sid);
      RevokeTokens(jtis);
      if jtis != {} {
        var jti :| jti in jtis;
        first := Some(jti);
        if tokens[jti].Full? {
          userIndex := userIndex - {(tokens[jti].body.user, sid)};
        }
      }
      sessions := sessions - {sid};
    }
  }
}
