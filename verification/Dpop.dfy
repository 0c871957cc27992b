/**
 Single-use DPoP nonces (sections 8 and 11.1 of RFC 9449): the shared store, the validation sequence, and
 any number of validations in flight at once over one store. A nonce is known by the order in which it was
 issued, so a new one differs from all before it.
 */
module Dpop {
  import opened Wrappers

  type Nonce = nat
  type Jti = nat
  type Party = nat

  /** `issuedTo[n]` is whom nonce n was sent to; `lapsed` has the jtis whose reservation has expired. */
  datatype Store = Store(live: set<Nonce>, issuedTo: seq<Party>, jtis: set<Jti>, lapsed: set<Jti>)

  /** `Faulty` is a proof that does not parse, or whose claims or signature are wrong. */
  datatype Proof = NoProof | Faulty | Good(nonce: Option<Nonce>, jti: Jti)

  datatype Error = MissingProof | InvalidProof | MissingNonce | InvalidNonce | Replay {
    /** The code use_dpop_nonce, which makes the client try again. */
    predicate AsksForNonce() { MissingProof? || MissingNonce? || InvalidNonce? }
  }

  datatype Reply = Accepted(nonce: Nonce) | Refused(error: Error, challenge: Option<Nonce>) | Unavailable

  datatype Fault = ConsumeFails | ReserveFails | IssueFails

  /** ---------- The store's operations ---------- */

  function Consumed(s: Store, n: Nonce): Store { s.(live := s.live - {n}) }

  function Reserved(s: Store, j: Jti): Store { s.(jtis := s.jtis + {j}) }

  function Issued(s: Store, to: Party): Store {
    s.(live := s.live + {|s.issuedTo|}, issuedTo := s.issuedTo + [to])
  }

  class NonceStore {
    var live: set<Nonce>
    var issuedTo: seq<Party>
    var jtis: set<Jti>
    ghost var lapsed: set<Jti>

    ghost function Value(): Store
      reads this
    {
      Store(live, issuedTo, jtis, lapsed)
    }

    constructor ()
      ensures Value() == Store({}, [], {}, {})
    {
      live, issuedTo, jtis, lapsed := {}, [], {}, {};
    }

    /** GET, then DEL, in one script. */
    method ConsumeNonce(n: Nonce) returns (existed: bool)
      modifies this`live
      ensures existed == (n in old(live)) && Value() == Consumed(old(Value()), n)
    {
      existed := n in live;
      if existed {
        live := live - {n};
      }
      assert live == old(live) - {n};
    }

    /** SET NX. */
    method ReserveJti(j: Jti) returns (acquired: bool)
      modifies this`jtis
      ensures acquired == (j !in old(jtis)) && Value() == Reserved(old(Value()), j)
    {
      acquired := j !in jtis;
      if acquired {
        jtis := jtis + {j};
      }
      assert jtis == old(jtis) + {j};
    }

    method IssueNonce(to: Party) returns (n: Nonce)
      modifies this`live, this`issuedTo
      ensures n == |old(issuedTo)| && Value() == Issued(old(Value()), to)
    {
      n := |issuedTo|;
      live, issuedTo := live + {n}, issuedTo + [to];
    }
  }

  /** ---------- One validation ---------- */

  datatype Outcome = Outcome(store: Store, reply: Reply)

  function RefusedWith(s: Store, party: Party, e: Error, fails: set<Fault>): Outcome {
    if IssueFails in fails then Outcome(s, Refused(e, None))
    else Outcome(Issued(s, party), Refused(e, Some(|s.issuedTo|)))
  }

  function AcceptedBy(s: Store, party: Party, fails: set<Fault>): Outcome {
    if IssueFails in fails then Outcome(s, Unavailable) else Outcome(Issued(s, party), Accepted(|s.issuedTo|))
  }

  /** The sequence of checks, with the nonce and jti checks left out when no store is configured. */
  function Validated(s: Store, checked: bool, party: Party, proof: Proof, fails: set<Fault>): Outcome {
    match proof
    case NoProof => RefusedWith(s, party, MissingProof, fails)
    case Faulty => RefusedWith(s, party, InvalidProof, fails)
    case Good(nonce, jti) =>
      if !checked then AcceptedBy(s, party, fails)
      else if nonce.None? then RefusedWith(s, party, MissingNonce, fails)
      else if ConsumeFails in fails then Outcome(s, Unavailable)
      else if nonce.value !in s.live then RefusedWith(s, party, InvalidNonce, fails)
      else
        var t := Consumed(s, nonce.value);
        if ReserveFails in fails then Outcome(t, Unavailable)
        else if jti in t.jtis then RefusedWith(t, party, Replay, fails)
        else AcceptedBy(Reserved(t, jti), party, fails)
  }

  class Validator {
    const store: NonceStore
    const checked: bool

    constructor (store: NonceStore, checked: bool)
      ensures this.store == store && this.checked == checked
    {
      this.store, this.checked := store, checked;
    }

    method IssueOrEmpty(party: Party, fails: set<Fault>) returns (nonce: Option<Nonce>)
      modifies store
      ensures nonce == if IssueFails in fails then None else Some(|old(store.issuedTo)|)
      ensures store.Value() == if IssueFails in fails then old(store.Value()) else Issued(old(store.Value()), party)
    {
      if IssueFails in fails {
        return None;
      }
      var n := store.IssueNonce(party);
      return Some(n);
    }

    method Validate(party: Party, proof: Proof, fails: set<Fault>) returns (reply: Reply)
      modifies store
      ensures Outcome(store.Value(), reply) == Validated(old(store.Value()), checked, party, proof, fails)
    {
      var nonce;
      if proof == NoProof {
        nonce := IssueOrEmpty(party, fails);
        return Refused(MissingProof, nonce);
      }
      if proof == Faulty {
        nonce := IssueOrEmpty(party, fails);
        return Refused(InvalidProof, nonce);
      }
      if checked {
        if proof.nonce == None {
          nonce := IssueOrEmpty(party, fails);
          return Refused(MissingNonce, nonce);
        }
        if ConsumeFails in fails {
          return Unavailable;
        }
        var consumed := store.ConsumeNonce(proof.nonce.value);
        if !consumed {
          nonce := IssueOrEmpty(party, fails);
          assert Consumed(old(store.Value()), proof.nonce.value) == old(store.Value());
          return Refused(InvalidNonce, nonce);
        }
        if ReserveFails in fails {
          return Unavailable;
        }
        var acquired := store.ReserveJti(proof.jti);
        if !acquired {
          assert store.jtis == old(store.jtis);
          nonce := IssueOrEmpty(party, fails);
          return Refused(Replay, nonce);
        }
      }
      nonce := IssueOrEmpty(party, fails);
      return if nonce == None then Unavailable else Accepted(nonce.value);
    }
  }

  /** The nonce of a good proof is there and live, and can be taken. */
  predicate NonceTakable(s: Store, proof: Proof, fails: set<Fault>) {
    proof.Good? && proof.nonce.Some? && proof.nonce.value in s.live && ConsumeFails !in fails
  }

  /** Which replies ask the client to come again with a nonce, which refuse it for good, and which accept it: a
      nonce is asked for exactly if there is no proof, or a good one without a nonce or with one that is not live. A
      faulty proof and a replayed jti are refused without that. */
  lemma RepliesExactly(s: Store, party: Party, proof: Proof, fails: set<Fault>)
    ensures var r := Validated(s, true, party, proof, fails).reply;
      var taken := NonceTakable(s, proof, fails);
      && (r.Refused? && r.error.AsksForNonce() <==>
            proof.NoProof? || (proof.Good? && (proof.nonce.None? || (proof.nonce.value !in s.live && ConsumeFails !in fails))))
      && (r.Refused? && r.error == InvalidProof <==> proof.Faulty?)
      && (r.Refused? && r.error == Replay <==> taken && ReserveFails !in fails && proof.jti in s.jtis)
      && (r.Accepted? <==> taken && ReserveFails !in fails && proof.jti !in s.jtis && IssueFails !in fails)
      && (r.Refused? ==> (r.challenge == None <==> IssueFails in fails))
  {
  }

  /** Without a store to check with, a good proof is accepted whatever its nonce and jti. */
  lemma UncheckedRepliesExactly(s: Store, party: Party, proof: Proof, fails: set<Fault>)
    ensures var r := Validated(s, false, party, proof, fails).reply;
      && (r.Accepted? <==> proof.Good? && IssueFails !in fails)
      && (r.Refused? && r.error.AsksForNonce() <==> proof.NoProof?)
      && (r.Refused? && r.error == InvalidProof <==> proof.Faulty?)
  {
  }

  /** A validation takes the nonce if it can, whatever comes after; it reserves the jti exactly if both are new and
      the reservation does not fail; and the nonce of the reply is a new one, issued to the caller. */
  lemma ValidationLeaves(s: Store, party: Party, proof: Proof, fails: set<Fault>, n: Nonce)
    requires forall k :: k in s.live ==> k < |s.issuedTo|
    ensures var o := Validated(s, true, party, proof, fails);
      var issued := o.reply.Accepted? || (o.reply.Refused? && o.reply.challenge.Some?);
      && (n < |s.issuedTo| ==>
            (n in o.store.live <==> n in s.live && !(NonceTakable(s, proof, fails) && n == proof.nonce.value)))
      && o.store.jtis == s.jtis + (if NonceTakable(s, proof, fails) && ReserveFails !in fails then {proof.jti} else {})
      && o.store.issuedTo == s.issuedTo + (if issued then [party] else [])
      && (issued ==> |s.issuedTo| in o.store.live)
      && (o.reply.Accepted? ==> o.reply.nonce == |s.issuedTo|)
      && (o.reply.Refused? && o.reply.challenge.Some? ==> o.reply.challenge.value == |s.issuedTo|)
  {
  }

  /** ---------- Many validations at once ---------- */

  /** Where a validation stands between its calls of the store. */
  datatype Phase = Arrived | NonceTaken | JtiTaken | Refusing(error: Error) | Finished(reply: Reply)

  /** `took` is the nonce it consumed. */
  datatype Flight = Flight(party: Party, proof: Proof, phase: Phase, took: Option<Nonce>)

  datatype System = System(store: Store, flights: seq<Flight>)

  /** `Advance` makes the next store call of a validation, `Break` lets that call fail; `Lapse` and
      `LapseJti` are keys that expire. */
  datatype Step =
    | Arrive(party: Party, proof: Proof)
    | Advance(f: nat)
    | Break(f: nat)
    | Lapse(nonce: Nonce)
    | LapseJti(jti: Jti)

  predicate Enabled(x: System, step: Step) {
    (step.Advance? || step.Break?) ==> step.f < |x.flights| && !x.flights[step.f].phase.Finished?
  }

  function Advanced(s: Store, f: Flight): (Store, Flight)
    requires !f.phase.Finished?
  {
    match f.phase
    case Arrived => (
      match f.proof
      case NoProof => (s, f.(phase := Refusing(MissingProof)))
      case Faulty => (s, f.(phase := Refusing(InvalidProof)))
      case Good(nonce, _) =>
        if nonce.None? then (s, f.(phase := Refusing(MissingNonce)))
        else if nonce.value in s.live then (Consumed(s, nonce.value), f.(phase := NonceTaken, took := nonce))
        else (s, f.(phase := Refusing(InvalidNonce))))
    case NonceTaken =>
      if f.proof.Good? && f.proof.jti !in s.jtis then (Reserved(s, f.proof.jti), f.(phase := JtiTaken))
      else (s, f.(phase := Refusing(Replay)))
    case JtiTaken => (Issued(s, f.party), f.(phase := Finished(Accepted(|s.issuedTo|))))
    case Refusing(e) => (Issued(s, f.party), f.(phase := Finished(Refused(e, Some(|s.issuedTo|)))))
  }

  function Broken(f: Flight): Flight
    requires !f.phase.Finished?
  {
    f.(phase := Finished(if f.phase.Refusing? then Refused(f.phase.error, None) else Unavailable))
  }

  function Apply(x: System, step: Step): System
    requires Enabled(x, step)
  {
    match step
    case Arrive(party, proof) => x.(flights := x.flights + [Flight(party, proof, Arrived, None)])
    case Advance(f) => var (s, g) := Advanced(x.store, x.flights[f]); System(s, x.flights[f := g])
    case Break(f) => x.(flights := x.flights[f := Broken(x.flights[f])])
    case Lapse(n) => x.(store := Consumed(x.store, n))
    case LapseJti(j) => x.(store := x.store.(jtis := x.store.jtis - {j}, lapsed := x.store.lapsed + {j}))
  }

  /** A run in which a step that is not enabled does nothing. */
  function After(x: System, steps: seq<Step>): System
    decreases |steps|
  {
    if steps == [] then x else After(if Enabled(x, steps[0]) then Apply(x, steps[0]) else x, steps[1..])
  }

  const START := System(Store({}, [], {}, {}), [])

  predicate IsAccepted(f: Flight) { f.phase.Finished? && f.phase.reply.Accepted? }

  predicate HoldsJti(f: Flight, j: Jti) { f.proof.Good? && f.proof.jti == j && (f.phase.JtiTaken? || IsAccepted(f)) }

  /** What a flight has taken from the store, and how it shows. */
  ghost predicate FlightInv(s: Store, f: Flight) {
    && (f.took.Some? ==> f.took.value < |s.issuedTo| && f.took.value !in s.live)
    && (f.phase.NonceTaken? || f.phase.JtiTaken? || IsAccepted(f) ==> f.proof.Good? && f.took.Some? && f.took == f.proof.nonce)
    && (f.phase.Arrived? ==> f.took.None?)
    && (f.proof.Good? && HoldsJti(f, f.proof.jti) && f.proof.jti !in s.lapsed ==> f.proof.jti in s.jtis)
  }

  ghost predicate Apart(s: Store, f: Flight, g: Flight) {
    && (f.took.Some? ==> f.took != g.took)
    && (forall j :: HoldsJti(f, j) && HoldsJti(g, j) ==> j in s.lapsed)
  }

  ghost predicate Inv(x: System) {
    && (forall n :: n in x.store.live ==> n < |x.store.issuedTo|)
    && (forall i :: 0 <= i < |x.flights| ==> FlightInv(x.store, x.flights[i]))
    && (forall i, k :: 0 <= i < k < |x.flights| ==> Apart(x.store, x.flights[i], x.flights[k]))
  }

  lemma AdvanceKeepsOthers(s: Store, f: Flight, g: Flight)
    requires !f.phase.Finished? && FlightInv(s, f) && FlightInv(s, g) && Apart(s, f, g) && Apart(s, g, f)
    ensures var (t, h) := Advanced(s, f); FlightInv(t, g) && Apart(t, h, g) && Apart(t, g, h)
  {
    var (t, h) := Advanced(s, f);
    if HoldsJti(h, if f.proof.Good? then f.proof.jti else 0) && g.proof.Good? {
      assert HoldsJti(g, g.proof.jti) && g.proof.jti !in s.lapsed ==> g.proof.jti in s.jtis;
    }
    assert forall j :: HoldsJti(h, j) && HoldsJti(g, j) && f.phase.JtiTaken? ==> HoldsJti(f, j);
  }

  lemma AdvanceKeepsSelf(s: Store, f: Flight)
    requires !f.phase.Finished? && FlightInv(s, f)
    requires forall n :: n in s.live ==> n < |s.issuedTo|
    ensures var (t, h) := Advanced(s, f); FlightInv(t, h) && forall n :: n in t.live ==> n < |t.issuedTo|
  {
  }

  lemma AdvanceKeepsInv(x: System, f: nat)
    requires Inv(x) && Enabled(x, Advance(f))
    ensures Inv(Apply(x, Advance(f)))
  {
    var fl, y := x.flights[f], Apply(x, Advance(f));
    AdvanceKeepsSelf(x.store, fl);
    forall i | 0 <= i < |x.flights| && i != f
      ensures FlightInv(y.store, y.flights[i])
      ensures Apart(y.store, y.flights[f], y.flights[i]) && Apart(y.store, y.flights[i], y.flights[f])
    {
      assert Apart(x.store, x.flights[if i < f then i else f], x.flights[if i < f then f else i]);
      AdvanceKeepsOthers(x.store, fl, x.flights[i]);
    }
  }

  lemma StepKeepsInv(x: System, step: Step)
    requires Inv(x) && Enabled(x, step)
    ensures Inv(Apply(x, step))
  {
    match step
    case Advance(f) => AdvanceKeepsInv(x, f);
    case _ =>
  }

  lemma {:induction false} RunKeepsInv(x: System, steps: seq<Step>)
    requires Inv(x)
    ensures Inv(After(x, steps))
    decreases |steps|
  {
    if steps != [] {
      if Enabled(x, steps[0]) { StepKeepsInv(x, steps[0]); }
      RunKeepsInv(if Enabled(x, steps[0]) then Apply(x, steps[0]) else x, steps[1..]);
    }
  }

  /** However validations interleave, break off and are challenged, no nonce is in two accepted ones, each
      accepted nonce was issued by the store and is gone from it, and a proof's jti is in two accepted
      validations only if its reservation expired in between. */
  lemma NonceAcceptedOnce(steps: seq<Step>, i: nat, k: nat)
    requires var x := After(START, steps); i < k < |x.flights| && IsAccepted(x.flights[i]) && IsAccepted(x.flights[k])
    ensures var x := After(START, steps);
      var p, q := x.flights[i].proof, x.flights[k].proof;
      && p.Good? && q.Good? && p.nonce.Some? && q.nonce.Some? && p.nonce != q.nonce
      && p.nonce.value < |x.store.issuedTo| && p.nonce.value !in x.store.live
      && (p.jti == q.jti ==> p.jti in x.store.lapsed)
  {
    var x := After(START, steps);
    RunKeepsInv(START, steps);
    assert FlightInv(x.store, x.flights[i]) && FlightInv(x.store, x.flights[k]);
    assert Apart(x.store, x.flights[i], x.flights[k]);
    assert HoldsJti(x.flights[i], x.flights[i].proof.jti);
  }

  /** The calls one validation makes, in order, up to the one that fails. */
  function CallsOf(f: nat, proof: Proof, s: Store, fails: set<Fault>): seq<Step> {
    var issue := if IssueFails in fails then Break(f) else Advance(f);
    match proof
    case NoProof => [Advance(f), issue]
    case Faulty => [Advance(f), issue]
    case Good(nonce, _) =>
      if nonce.None? then [Advance(f), issue]
      else if ConsumeFails in fails then [Break(f)]
      else if nonce.value !in s.live then [Advance(f), issue]
      else if ReserveFails in fails then [Advance(f), Break(f)]
      else [Advance(f), Advance(f), issue]
  }

  lemma AfterFirst(x: System, step: Step, rest: seq<Step>)
    requires Enabled(x, step)
    ensures After(x, [step] + rest) == After(Apply(x, step), rest)
  {
    assert ([step] + rest)[1..] == rest;
  }

  /** Flight `f`, the last, has ended with the outcome `o`. */
  ghost predicate EndsWith(x: System, y: System, f: nat, o: Outcome) {
    && y.store == o.store && |x.flights| == |y.flights| == f + 1
    && y.flights[..f] == x.flights[..f] && y.flights[f].phase == Finished(o.reply)
  }

  /** The last call: it issues a nonce, or fails to. */
  lemma IssueEnds(x: System, f: nat, fails: set<Fault>)
    requires |x.flights| == f + 1 && (x.flights[f].phase.Refusing? || x.flights[f].phase.JtiTaken?)
    ensures var fl := x.flights[f];
      EndsWith(x, After(x, [if IssueFails in fails then Break(f) else Advance(f)]), f,
        if fl.phase.Refusing? then RefusedWith(x.store, fl.party, fl.phase.error, fails)
        else AcceptedBy(x.store, fl.party, fails))
  {
    var issue := if IssueFails in fails then Break(f) else Advance(f);
    AfterFirst(x, issue, []);
    assert [issue] + [] == [issue];
  }

  /** The flight's calls from the start. */
  lemma CallsEnd(x: System, f: nat, fails: set<Fault>)
    requires |x.flights| == f + 1 && x.flights[f].phase.Arrived?
    ensures var fl := x.flights[f];
      EndsWith(x, After(x, CallsOf(f, fl.proof, x.store, fails)), f, Validated(x.store, true, fl.party, fl.proof, fails))
  {
    var fl, issue := x.flights[f], if IssueFails in fails then Break(f) else Advance(f);
    var calls := CallsOf(f, fl.proof, x.store, fails);
    AfterFirst(x, calls[0], calls[1..]);
    assert calls == [calls[0]] + calls[1..];
    if calls[0].Advance? {
      var y := Apply(x, calls[0]);
      if y.flights[f].phase.NonceTaken? {
        TakenEnds(y, f, fails);
        assert calls[1..] == if ReserveFails in fails then [Break(f)] else [Advance(f), issue];
      } else {
        IssueEnds(y, f, fails);
        assert calls[1..] == [issue];
      }
    }
  }

  lemma TakenEnds(x: System, f: nat, fails: set<Fault>)
    requires |x.flights| == f + 1 && x.flights[f].phase.NonceTaken? && x.flights[f].proof.Good?
    ensures var fl, issue := x.flights[f], if IssueFails in fails then Break(f) else Advance(f);
      var calls := if ReserveFails in fails then [Break(f)] else [Advance(f), issue];
      var jti := fl.proof.jti;
      EndsWith(x, After(x, calls), f,
        if ReserveFails in fails then Outcome(x.store, Unavailable)
        else if jti in x.store.jtis then RefusedWith(x.store, fl.party, Replay, fails)
        else AcceptedBy(Reserved(x.store, jti), fl.party, fails))
  {
    var issue := if IssueFails in fails then Break(f) else Advance(f);
    if ReserveFails in fails {
      AfterFirst(x, Break(f), []);
      assert [Break(f)] + [] == [Break(f)];
    } else {
      AfterFirst(x, Advance(f), [issue]);
      assert [Advance(f)] + [issue] == [Advance(f), issue];
      IssueEnds(Apply(x, Advance(f)), f, fails);
    }
  }

  /** `Validate` on its own is one such run: its flight, added last, ends with the same reply and leaves
      the same store. */
  lemma ValidateIsRun(x: System, party: Party, proof: Proof, fails: set<Fault>)
    ensures var f := |x.flights|;
      var y := After(x, [Arrive(party, proof)] + CallsOf(f, proof, x.store, fails));
      var o := Validated(x.store, true, party, proof, fails);
      y.store == o.store && |y.flights| == f + 1 && y.flights[..f] == x.flights && y.flights[f].phase == Finished(o.reply)
  {
    var f, a := |x.flights|, Arrive(party, proof);
    AfterFirst(x, a, CallsOf(f, proof, x.store, fails));
    CallsEnd(Apply(x, a), f, fails);
    assert Apply(x, a).flights[..f] == x.flights;
  }
}
