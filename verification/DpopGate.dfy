/**
 The gate in front of the client's fetches: a chain of promises, in which each caller waits for the one that
 was last when it came, however that one ended.
 */
module DpopGate {
  import opened Wrappers

  datatype CallState = Waiting | Running | Settled(ok: bool)

  /** `after` is the call whose end this one waits for. */
  datatype Caller = Caller(after: Option<nat>, state: CallState)

  /** `last` is the gate: the call to wait for next. `started` lists the calls in the order they began. */
  datatype Gate = Gate(callers: seq<Caller>, last: Option<nat>, started: seq<nat>)

  datatype Step = Enter | Start(i: nat) | Settle(i: nat, ok: bool)

  const OPEN := Gate([], None, [])

  predicate MayStart(g: Gate, i: nat)
    requires i < |g.callers|
  {
    var c := g.callers[i];
    c.state.Waiting? && (c.after.Some? ==> c.after.value < |g.callers| && g.callers[c.after.value].state.Settled?)
  }

  predicate Enabled(g: Gate, step: Step) {
    match step
    case Enter => true
    case Start(i) => i < |g.callers| && MayStart(g, i)
    case Settle(i, _) => i < |g.callers| && g.callers[i].state.Running?
  }

  function Apply(g: Gate, step: Step): Gate
    requires Enabled(g, step)
  {
    match step
    case Enter => g.(callers := g.callers + [Caller(g.last, Waiting)], last := Some(|g.callers|))
    case Start(i) => g.(callers := g.callers[i := g.callers[i].(state := Running)], started := g.started + [i])
    case Settle(i, ok) => g.(callers := g.callers[i := g.callers[i].(state := Settled(ok))])
  }

  /** `withDPoPGate`: the new call is chained to the gate, and becomes the gate. */
  class PromiseChain {
    var callers: seq<Caller>
    var dpopGate: Option<nat>
    ghost var started: seq<nat>

    ghost function Value(): Gate
      reads this
    {
      Gate(callers, dpopGate, started)
    }

    constructor ()
      ensures Value() == OPEN
    {
      callers, dpopGate, started := [], None, [];
    }

    method WithDPoPGate() returns (i: nat)
      modifies this
      ensures i == |old(callers)| && Value() == Apply(old(Value()), Enter)
    {
      i := |callers|;
      callers := callers + [Caller(dpopGate, Waiting)];
      dpopGate := Some(i);
    }

    /** The function of call `i` begins; its turn has come. */
    method Begin(i: nat)
      requires i < |callers| && MayStart(Value(), i)
      modifies this
      ensures Value() == Apply(old(Value()), Start(i))
    {
      callers := callers[i := callers[i].(state := Running)];
      started := started + [i];
    }

    method End(i: nat, ok: bool)
      requires i < |callers| && callers[i].state.Running?
      modifies this
      ensures Value() == Apply(old(Value()), Settle(i, ok))
    {
      callers := callers[i := callers[i].(state := Settled(ok))];
    }
  }

  ghost predicate Leads(g: Gate, h: Gate, steps: seq<Step>)
    decreases |steps|
  {
    if steps == [] then g == h
    else Enabled(g, steps[0]) && Leads(Apply(g, steps[0]), h, steps[1..])
  }

  ghost predicate Reachable(g: Gate) { exists steps :: Leads(OPEN, g, steps) }

  ghost predicate Inv(g: Gate) {
    && g.last == (if g.callers == [] then None else Some(|g.callers| - 1))
    && (forall i :: 0 <= i < |g.callers| ==> g.callers[i].after == if i == 0 then None else Some(i - 1))
    && (forall i :: 0 < i < |g.callers| && !g.callers[i].state.Waiting? ==> g.callers[i - 1].state.Settled?)
    && |g.started| <= |g.callers| && (forall k :: 0 <= k < |g.started| ==> g.started[k] == k)
    && (forall i :: 0 <= i < |g.callers| ==> (g.callers[i].state.Waiting? <==> |g.started| <= i))
  }

  lemma StepKeepsInv(g: Gate, step: Step)
    requires Inv(g) && Enabled(g, step)
    ensures Inv(Apply(g, step))
  {
    if step.Start? {
      assert step.i == 0 || g.callers[step.i - 1].state.Settled?;
      assert step.i == |g.started|;
    }
  }

  lemma {:induction false} RunKeepsInv(g: Gate, h: Gate, steps: seq<Step>)
    requires Inv(g) && Leads(g, h, steps)
    ensures Inv(h)
    decreases |steps|
  {
    if steps != [] {
      StepKeepsInv(g, steps[0]);
      RunKeepsInv(Apply(g, steps[0]), h, steps[1..]);
    }
  }

  lemma {:induction false} EarlierSettled(g: Gate, i: nat, k: nat)
    requires Inv(g) && i < k < |g.callers| && !g.callers[k].state.Waiting?
    ensures g.callers[i].state.Settled?
    decreases k - i
  {
    assert g.callers[k - 1].state.Settled?;
    if i < k - 1 {
      EarlierSettled(g, i, k - 1);
    }
  }

  /** Whoever calls when, the calls run one at a time and in the order in which they came: when one runs or has
      ended, all before it have ended. */
  lemma OneAtATimeInOrder(g: Gate, i: nat, k: nat)
    requires Reachable(g) && i < k < |g.callers| && !g.callers[k].state.Waiting?
    ensures g.callers[i].state.Settled?
    ensures |g.started| > k && g.started[i] == i && g.started[k] == k
  {
    var steps :| Leads(OPEN, g, steps);
    RunKeepsInv(OPEN, g, steps);
    EarlierSettled(g, i, k);
  }

  /** No failure closes the gate: while a call has not ended, one is running or may start. */
  lemma NeverStuck(g: Gate, k: nat)
    requires Reachable(g) && k < |g.callers| && !g.callers[k].state.Settled?
    ensures exists i :: 0 <= i <= k && (g.callers[i].state.Running? || MayStart(g, i))
  {
    var steps :| Leads(OPEN, g, steps);
    RunKeepsInv(OPEN, g, steps);
    FirstOpen(g, k);
  }

  lemma {:induction false} FirstOpen(g: Gate, k: nat)
    requires Inv(g) && k < |g.callers| && !g.callers[k].state.Settled?
    ensures exists i :: 0 <= i <= k && (g.callers[i].state.Running? || MayStart(g, i))
    decreases k
  {
    if k > 0 && !g.callers[k - 1].state.Settled? {
      FirstOpen(g, k - 1);
    } else {
      assert g.callers[k].state.Running? || MayStart(g, k);
    }
  }
}
