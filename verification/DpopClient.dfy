/**
 The client half of the DPoP nonce protocol: one fetch at a time, the nonce kept from every response, and
 the retry on a challenge. The fetches run against the validators of `Dpop`, with other parties' requests
 taking steps before, between and after the store calls of the client's own validation.
 */
module DpopClient {
  import opened Wrappers
  import opened Dpop

  /** What the rest of the world does around the three steps of one validation. */
  datatype Gaps = Gaps(before: seq<Step>, first: seq<Step>, second: seq<Step>, third: seq<Step>)

  function Next(x: System, f: nat): System { if Enabled(x, Advance(f)) then Apply(x, Advance(f)) else x }

  function Sent(x: System, me: Party, proof: Proof): System { x.(flights := x.flights + [Flight(me, proof, Arrived, None)]) }

  function ReplyOf(x: System, f: nat): Reply {
    if f < |x.flights| && x.flights[f].phase.Finished? then x.flights[f].phase.reply else Unavailable
  }

  function Fetched(x: System, me: Party, proof: Proof, gaps: Gaps): (System, Reply) {
    var x0 := After(x, gaps.before);
    var f := |x0.flights|;
    var x1 := After(Next(Sent(x0, me, proof), f), gaps.first);
    var x2 := After(Next(x1, f), gaps.second);
    var x3 := After(Next(x2, f), gaps.third);
    (x3, ReplyOf(x3, f))
  }

  function NonceOf(reply: Reply): Option<Nonce> {
    match reply
    case Accepted(n) => Some(n)
    case Refused(_, challenge) => challenge
    case Unavailable => None
  }

  predicate IsUseNonce(reply: Reply) { reply.Refused? && reply.error.AsksForNonce() }

  /** A call of `doFetch` so far: the world, the stored nonce, the last response, and how many were sent. */
  datatype Call = Call(sys: System, stored: Option<Nonce>, reply: Reply, fetches: nat)

  function FetchOnce(x: System, me: Party, stored: Option<Nonce>, nonce: Option<Nonce>, jti: Jti, gaps: Gaps, fetches: nat): Call {
    var (y, reply) := Fetched(x, me, Good(nonce, jti), gaps);
    Call(y, if NonceOf(reply).Some? then NonceOf(reply) else stored, reply, fetches + 1)
  }

  function Retried(c: Call, me: Party, attempts: nat, jtis: seq<Jti>, gaps: seq<Gaps>): Call
    requires |jtis| == |gaps| == attempts
    decreases attempts
  {
    if attempts == 0 || !IsUseNonce(c.reply) || NonceOf(c.reply).None? then c else
    Retried(FetchOnce(c.sys, me, c.stored, NonceOf(c.reply), jtis[0], gaps[0], c.fetches), me, attempts - 1, jtis[1..], gaps[1..])
  }

  function Called(x: System, me: Party, stored: Option<Nonce>, jtis: seq<Jti>, gaps: seq<Gaps>): Call
    requires |jtis| == |gaps| == 3
  {
    Retried(FetchOnce(x, me, stored, stored, jtis[0], gaps[0], 0), me, 2, jtis[1..], gaps[1..])
  }

  /** The services behind the client, with everyone else who uses them. */
  class Backend {
    var sys: System

    constructor (sys: System)
      ensures this.sys == sys
    {
      this.sys := sys;
    }

    method Fetch(me: Party, proof: Proof, gaps: Gaps) returns (reply: Reply)
      modifies this
      ensures (sys, reply) == Fetched(old(sys), me, proof, gaps)
    {
      sys := After(sys, gaps.before);
      var f := |sys.flights|;
      sys := Sent(sys, me, proof);
      sys := After(Next(sys, f), gaps.first);
      sys := After(Next(sys, f), gaps.second);
      sys := After(Next(sys, f), gaps.third);
      reply := ReplyOf(sys, f);
    }
  }

  class ApiClient {
    const me: Party
    const backend: Backend
    var dpopNonce: Option<Nonce>

    constructor (me: Party, backend: Backend)
      ensures this.me == me && this.backend == backend && dpopNonce == None
    {
      this.me, this.backend, dpopNonce := me, backend, None;
    }

    method CaptureDPoPNonce(reply: Reply) returns (nonce: Option<Nonce>)
      modifies this`dpopNonce
      ensures nonce == NonceOf(reply)
      ensures dpopNonce == if nonce.Some? then nonce else old(dpopNonce)
    {
      nonce := NonceOf(reply);
      if nonce.Some? {
        dpopNonce := nonce;
      }
    }

    /** The calls pass a gate one by one, so nothing else of this client happens meanwhile. */
    method DoFetch(jtis: seq<Jti>, gaps: seq<Gaps>) returns (reply: Reply, fetches: nat)
      requires |jtis| == |gaps| == 3
      modifies this`dpopNonce, backend
      ensures Call(backend.sys, dpopNonce, reply, fetches) == Called(old(backend.sys), me, old(dpopNonce), jtis, gaps)
    {
      reply := backend.Fetch(me, Good(dpopNonce, jtis[0]), gaps[0]);
      var challenge := CaptureDPoPNonce(reply);
      fetches := 1;
      var attempt := 0;
      while attempt < 2 && IsUseNonce(reply)
        invariant 0 <= attempt <= 2 && challenge == NonceOf(reply)
        invariant Called(old(backend.sys), me, old(dpopNonce), jtis, gaps) ==
                  Retried(Call(backend.sys, dpopNonce, reply, fetches), me, 2 - attempt, jtis[1 + attempt..], gaps[1 + attempt..])
        decreases 2 - attempt
      {
        if challenge == None {
          break;
        }
        reply := backend.Fetch(me, Good(challenge, jtis[1 + attempt]), gaps[1 + attempt]);
        challenge := CaptureDPoPNonce(reply);
        fetches := fetches + 1;
        attempt := attempt + 1;
      }
    }
  }

  /** The reply is a challenge that names a nonce. */
  predicate GoesOn(reply: Reply) { reply.Refused? && reply.error.AsksForNonce() && reply.challenge.Some? }

  /** A call sends once more after each of its first two replies that is a challenge naming a nonce, with that
      nonce; and it ends with the first other reply, or with the third. */
  lemma FetchesExactly(x: System, me: Party, stored: Option<Nonce>, jtis: seq<Jti>, gaps: seq<Gaps>)
    requires |jtis| == |gaps| == 3
    ensures var c := Called(x, me, stored, jtis, gaps);
      var (x1, r1) := Fetched(x, me, Good(stored, jtis[0]), gaps[0]);
      if !GoesOn(r1) then c.fetches == 1 && c.reply == r1 && c.sys == x1 else
      var (x2, r2) := Fetched(x1, me, Good(r1.challenge, jtis[1]), gaps[1]);
      if !GoesOn(r2) then c.fetches == 2 && c.reply == r2 && c.sys == x2 else
      var (x3, r3) := Fetched(x2, me, Good(r2.challenge, jtis[2]), gaps[2]);
      c.fetches == 3 && c.reply == r3 && c.sys == x3
  {
    var c1 := FetchOnce(x, me, stored, stored, jtis[0], gaps[0], 0);
    assert jtis[1..][1..] == [jtis[2]] && gaps[1..][1..] == [gaps[2]];
    if GoesOn(c1.reply) {
      var c2 := FetchOnce(c1.sys, me, c1.stored, NonceOf(c1.reply), jtis[1], gaps[1], 1);
      assert Called(x, me, stored, jtis, gaps) == Retried(c2, me, 1, [jtis[2]], [gaps[2]]);
    }
  }

  /** ---------- What the others may do ---------- */

  predicate BelongsTo(s: Store, n: Nonce, p: Party) { n < |s.issuedTo| && s.issuedTo[n] == p }

  /** A request of someone else: it carries no jti of the client's, and a nonce only if it was issued to
      its sender. */
  predicate Honest(s: Store, me: Party, mine: set<Jti>, p: Party, proof: Proof) {
    && p != me
    && (proof.Good? ==> proof.jti !in mine && (proof.nonce.Some? ==> BelongsTo(s, proof.nonce.value, p)))
  }

  /** The client's nonces do not expire, and no step of its own validations is taken or broken off. */
  predicate Polite(x: System, me: Party, mine: set<Jti>, step: Step) {
    match step
    case Arrive(p, proof) => Honest(x.store, me, mine, p, proof)
    case Advance(f) => f < |x.flights| ==> x.flights[f].party != me
    case Break(f) => f < |x.flights| ==> x.flights[f].party != me
    case Lapse(n) => !BelongsTo(x.store, n, me)
    case LapseJti(_) => true
  }

  ghost predicate PoliteRun(x: System, me: Party, mine: set<Jti>, steps: seq<Step>)
    decreases |steps|
  {
    steps == [] ||
      (Polite(x, me, mine, steps[0]) &&
       PoliteRun(if Enabled(x, steps[0]) then Apply(x, steps[0]) else x, me, mine, steps[1..]))
  }

  ghost predicate PoliteFetch(x: System, me: Party, mine: set<Jti>, proof: Proof, gaps: Gaps) {
    var x0 := After(x, gaps.before);
    var f := |x0.flights|;
    var s0 := Next(Sent(x0, me, proof), f);
    var s1 := Next(After(s0, gaps.first), f);
    var s2 := Next(After(s1, gaps.second), f);
    && PoliteRun(x, me, mine, gaps.before) && PoliteRun(s0, me, mine, gaps.first)
    && PoliteRun(s1, me, mine, gaps.second) && PoliteRun(s2, me, mine, gaps.third)
  }

  /** Everyone else's requests are honest, and the store names no nonce it has not issued. */
  ghost predicate World(x: System, me: Party, mine: set<Jti>) {
    && (forall n :: n in x.store.live ==> n < |x.store.issuedTo|)
    && (forall f :: 0 <= f < |x.flights| && x.flights[f].party != me ==>
          Honest(x.store, me, mine, x.flights[f].party, x.flights[f].proof))
  }

  predicate Holds(x: System, me: Party, n: Nonce) { n in x.store.live && BelongsTo(x.store, n, me) }

  /** What stays as it was for the client. */
  ghost predicate Kept(x: System, y: System, me: Party, mine: set<Jti>) {
    && |x.flights| <= |y.flights|
    && (forall f :: 0 <= f < |x.flights| && x.flights[f].party == me ==> y.flights[f] == x.flights[f])
    && (forall n :: Holds(x, me, n) ==> Holds(y, me, n))
    && (forall j :: j in mine && j in y.store.jtis ==> j in x.store.jtis)
  }

  lemma PoliteKeeps(x: System, me: Party, mine: set<Jti>, step: Step)
    requires World(x, me, mine) && Polite(x, me, mine, step) && Enabled(x, step)
    ensures World(Apply(x, step), me, mine) && Kept(x, Apply(x, step), me, mine)
  {
  }

  lemma {:induction false} PoliteRunKeeps(x: System, me: Party, mine: set<Jti>, steps: seq<Step>)
    requires World(x, me, mine) && PoliteRun(x, me, mine, steps)
    ensures World(After(x, steps), me, mine) && Kept(x, After(x, steps), me, mine)
    decreases |steps|
  {
    if steps != [] {
      if Enabled(x, steps[0]) {
        PoliteKeeps(x, me, mine, steps[0]);
        PoliteRunKeeps(Apply(x, steps[0]), me, mine, steps[1..]);
      } else {
        PoliteRunKeeps(x, me, mine, steps[1..]);
      }
    }
  }

  /** ---------- One fetch ---------- */

  /** The client's own validation takes a step and then the others go on. */
  lemma OwnStep(x: System, me: Party, mine: set<Jti>, f: nat, steps: seq<Step>)
    requires World(x, me, mine) && f < |x.flights| && x.flights[f].party == me && !x.flights[f].phase.Finished?
    requires PoliteRun(Next(x, f), me, mine, steps)
    ensures var y := After(Next(x, f), steps);
      var (s, g) := Advanced(x.store, x.flights[f]);
      && World(y, me, mine) && f < |y.flights| && y.flights[f] == g
      && (forall n :: n in s.live && BelongsTo(s, n, me) ==> Holds(y, me, n))
      && (forall j :: j in mine && j in y.store.jtis ==> j in s.jtis)
  {
    var z := Next(x, f);
    var (s, g) := Advanced(x.store, x.flights[f]);
    assert z == System(s, x.flights[f := g]);
    assert World(z, me, mine);
    PoliteRunKeeps(z, me, mine, steps);
    assert forall n :: n in s.live && BelongsTo(s, n, me) ==> Holds(z, me, n);
  }

  /** A finished validation of the client is left alone. */
  lemma OwnRest(x: System, me: Party, mine: set<Jti>, f: nat, steps: seq<Step>)
    requires World(x, me, mine) && f < |x.flights| && x.flights[f].party == me && x.flights[f].phase.Finished?
    requires PoliteRun(Next(x, f), me, mine, steps)
    ensures World(After(Next(x, f), steps), me, mine) && Kept(x, After(Next(x, f), steps), me, mine)
  {
    assert Next(x, f) == x;
    PoliteRunKeeps(x, me, mine, steps);
  }

  /** What the client is left with after a fetch: it was accepted or asked for a nonce, and either way it
      holds the nonce that came back. */
  ghost predicate Settled(x: System, y: System, me: Party, mine: set<Jti>, j: Jti, reply: Reply) {
    && World(y, me, mine)
    && (reply.Accepted? || IsUseNonce(reply))
    && NonceOf(reply).Some? && Holds(y, me, NonceOf(reply).value)
    && (forall k :: k in mine && k in y.store.jtis ==> k in x.store.jtis || k == j)
  }

  lemma AfterNonceTaken(x: System, me: Party, mine: set<Jti>, f: nat, second: seq<Step>, third: seq<Step>)
    requires World(x, me, mine) && f < |x.flights| && x.flights[f].party == me && x.flights[f].phase.NonceTaken?
    requires x.flights[f].proof.Good? && x.flights[f].proof.jti in mine && x.flights[f].proof.jti !in x.store.jtis
    requires PoliteRun(Next(x, f), me, mine, second)
    requires PoliteRun(Next(After(Next(x, f), second), f), me, mine, third)
    ensures var y := After(Next(After(Next(x, f), second), f), third);
      ReplyOf(y, f).Accepted? && Settled(x, y, me, mine, x.flights[f].proof.jti, ReplyOf(y, f))
  {
    OwnStep(x, me, mine, f, second);
    OwnStep(After(Next(x, f), second), me, mine, f, third);
  }

  lemma AfterRefusal(x: System, me: Party, mine: set<Jti>, f: nat, second: seq<Step>, third: seq<Step>, j: Jti)
    requires World(x, me, mine) && f < |x.flights| && x.flights[f].party == me
    requires x.flights[f].phase.Refusing? && x.flights[f].phase.error.AsksForNonce()
    requires PoliteRun(Next(x, f), me, mine, second)
    requires PoliteRun(Next(After(Next(x, f), second), f), me, mine, third)
    ensures var y := After(Next(After(Next(x, f), second), f), third);
      IsUseNonce(ReplyOf(y, f)) && Settled(x, y, me, mine, j, ReplyOf(y, f))
  {
    OwnStep(x, me, mine, f, second);
    OwnRest(After(Next(x, f), second), me, mine, f, third);
  }

  lemma FetchSettles(x: System, me: Party, mine: set<Jti>, nonce: Option<Nonce>, j: Jti, gaps: Gaps)
    requires World(x, me, mine) && j in mine && j !in x.store.jtis
    requires PoliteFetch(x, me, mine, Good(nonce, j), gaps)
    ensures var (y, reply) := Fetched(x, me, Good(nonce, j), gaps);
      Settled(x, y, me, mine, j, reply) && (nonce.Some? && Holds(x, me, nonce.value) ==> reply.Accepted?)
  {
    PoliteRunKeeps(x, me, mine, gaps.before);
    var x0 := After(x, gaps.before);
    var f, sent := |x0.flights|, Sent(x0, me, Good(nonce, j));
    assert World(sent, me, mine);
    OwnStep(sent, me, mine, f, gaps.first);
    var x1 := After(Next(sent, f), gaps.first);
    assert j !in x1.store.jtis;
    if x1.flights[f].phase.NonceTaken? {
      AfterNonceTaken(x1, me, mine, f, gaps.second, gaps.third);
    } else {
      AfterRefusal(x1, me, mine, f, gaps.second, gaps.third, j);
    }
  }

  /** ---------- A whole call ---------- */

  ghost predicate PoliteCall(x: System, me: Party, mine: set<Jti>, stored: Option<Nonce>, jtis: seq<Jti>, gaps: seq<Gaps>)
    requires |jtis| == |gaps| == 3
  {
    var c := FetchOnce(x, me, stored, stored, jtis[0], gaps[0], 0);
    && PoliteFetch(x, me, mine, Good(stored, jtis[0]), gaps[0])
    && (IsUseNonce(c.reply) ==> PoliteFetch(c.sys, me, mine, Good(NonceOf(c.reply), jtis[1]), gaps[1]))
  }

  /** The jtis of a call are the client's own and new. */
  ghost predicate FreshJtis(x: System, mine: set<Jti>, jtis: seq<Jti>) {
    && (forall i :: 0 <= i < |jtis| ==> jtis[i] in mine && jtis[i] !in x.store.jtis)
    && (forall i, k :: 0 <= i < k < |jtis| ==> jtis[i] != jtis[k])
  }

  /** With a healthy store and no nonce of the client expiring meanwhile, a call is accepted after at most
      two fetches, whatever nonce was stored before it, and leaves a live nonce for the next one. It takes
      one fetch if the stored nonce is live. */
  lemma CallSettles(x: System, me: Party, mine: set<Jti>, stored: Option<Nonce>, jtis: seq<Jti>, gaps: seq<Gaps>)
    requires World(x, me, mine) && |jtis| == |gaps| == 3 && FreshJtis(x, mine, jtis)
    requires PoliteCall(x, me, mine, stored, jtis, gaps)
    ensures var c := Called(x, me, stored, jtis, gaps);
      && c.reply.Accepted? && c.fetches <= 2
      && c.stored == NonceOf(c.reply) && Holds(c.sys, me, c.reply.nonce)
      && (stored.Some? && Holds(x, me, stored.value) ==> c.fetches == 1)
      && World(c.sys, me, mine)
      && (forall k :: k in mine && k in c.sys.store.jtis ==> k in x.store.jtis || k in jtis)
  {
    FetchSettles(x, me, mine, stored, jtis[0], gaps[0]);
    var c := FetchOnce(x, me, stored, stored, jtis[0], gaps[0], 0);
    if IsUseNonce(c.reply) {
      FetchSettles(c.sys, me, mine, NonceOf(c.reply), jtis[1], gaps[1]);
      var d := FetchOnce(c.sys, me, c.stored, NonceOf(c.reply), jtis[1], gaps[1], 1);
      assert Retried(d, me, 1, jtis[1..][1..], gaps[1..][1..]) == d;
      assert Called(x, me, stored, jtis, gaps) == d;
    }
  }

  /** Calls one after the other. */
  function CalledAll(x: System, me: Party, stored: Option<Nonce>, jtis: seq<seq<Jti>>, gaps: seq<seq<Gaps>>): seq<Call>
    requires |jtis| == |gaps| && forall i :: 0 <= i < |jtis| ==> |jtis[i]| == |gaps[i]| == 3
    decreases |jtis|
  {
    if jtis == [] then [] else
    var c := Called(x, me, stored, jtis[0], gaps[0]);
    [c] + CalledAll(c.sys, me, c.stored, jtis[1..], gaps[1..])
  }

  ghost predicate PoliteCalls(
      x: System, me: Party, mine: set<Jti>, stored: Option<Nonce>, jtis: seq<seq<Jti>>, gaps: seq<seq<Gaps>>)
    requires |jtis| == |gaps| && forall i :: 0 <= i < |jtis| ==> |jtis[i]| == |gaps[i]| == 3
    decreases |jtis|
  {
    jtis == [] ||
      (var c := Called(x, me, stored, jtis[0], gaps[0]);
       && FreshJtis(x, mine, jtis[0]) && PoliteCall(x, me, mine, stored, jtis[0], gaps[0])
       && PoliteCalls(c.sys, me, mine, c.stored, jtis[1..], gaps[1..]))
  }

  /** In a row of calls only the first can be challenged: every later one is accepted on its one fetch. */
  lemma {:induction false} OnlyTheFirstIsChallenged(
      x: System, me: Party, mine: set<Jti>, stored: Option<Nonce>, jtis: seq<seq<Jti>>, gaps: seq<seq<Gaps>>)
    requires |jtis| == |gaps| && forall i :: 0 <= i < |jtis| ==> |jtis[i]| == |gaps[i]| == 3
    requires World(x, me, mine) && PoliteCalls(x, me, mine, stored, jtis, gaps)
    ensures var cs := CalledAll(x, me, stored, jtis, gaps);
      && |cs| == |jtis|
      && (forall i :: 0 <= i < |cs| ==> cs[i].reply.Accepted? && cs[i].fetches <= 2)
      && (forall i :: 0 <= i < |cs| && (0 < i || (stored.Some? && Holds(x, me, stored.value))) ==> cs[i].fetches == 1)
    decreases |jtis|
  {
    if jtis != [] {
      var c := Called(x, me, stored, jtis[0], gaps[0]);
      CallSettles(x, me, mine, stored, jtis[0], gaps[0]);
      OnlyTheFirstIsChallenged(c.sys, me, mine, c.stored, jtis[1..], gaps[1..]);
    }
  }
}
