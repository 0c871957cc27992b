/**
 The trip/cooldown/probe breaker around the gateway's Redis call, and the middleware that consults it.
 Times are in one unit of a monotone clock; L1's answer and Redis's answer are inputs.
 */
module CircuitBreaker {
  datatype State = Closed | Open | HalfOpen

  datatype Config = Config(threshold: int, cooldown: int)

  datatype Breaker = Breaker(failures: nat, state: State, openedAt: int)

  const FRESH := Breaker(0, Closed, 0)

  /** What the middleware makes of the configured values. */
  function Effective(c: Config): (e: Config)
    ensures 0 < e.threshold && 0 < e.cooldown
    ensures c.threshold <= 0 ==> e.threshold == 3
    ensures c.cooldown <= 0 ==> e.cooldown == 5_000_000_000
    ensures 0 < c.threshold ==> e.threshold == c.threshold
    ensures 0 < c.cooldown ==> e.cooldown == c.cooldown
  {
    Config(if c.threshold <= 0 then DEFAULT_THRESHOLD else c.threshold,
           if c.cooldown <= 0 then DEFAULT_COOLDOWN else c.cooldown)
  }

  const DEFAULT_THRESHOLD := 3
  const DEFAULT_COOLDOWN := 5_000_000_000

  predicate Admits(c: Config, b: Breaker, now: int) { b.state != Open || c.cooldown <= now - b.openedAt }

  function AfterAllow(c: Config, b: Breaker, now: int): Breaker {
    if b.state == Open && Admits(c, b, now) then b.(state := HalfOpen) else b
  }

  function AfterSuccess(b: Breaker): Breaker {
    b.(failures := 0, state := if b.state == HalfOpen then Closed else b.state)
  }

  function AfterFailure(c: Config, b: Breaker, now: int): Breaker {
    var n := b.failures + 1;
    if b.state == HalfOpen || (b.state == Closed && c.threshold <= n) then Breaker(n, Open, now) else b.(failures := n)
  }

  class Cell {
    const config: Config
    var failures: nat
    var state: State
    var openedAt: int

    ghost function Value(): Breaker
      reads this
    {
      Breaker(failures, state, openedAt)
    }

    constructor (config: Config)
      ensures this.config == config && Value() == FRESH
    {
      this.config, failures, state, openedAt := config, 0, Closed, 0;
    }

    method Allow(now: int) returns (admitted: bool)
      modifies this`state
      ensures admitted == Admits(config, old(Value()), now) && Value() == AfterAllow(config, old(Value()), now)
      ensures admitted <==> old(state) != Open || config.cooldown <= now - old(openedAt)
      ensures state == if old(state) == Open && admitted then HalfOpen else old(state)
    {
      match state {
        case Open =>
          if now - openedAt >= config.cooldown {
            state := HalfOpen;
            return true;
          }
          return false;
        case HalfOpen => return true;
        case Closed => return true;
      }
    }

    method Success()
      modifies this
      ensures Value() == AfterSuccess(old(Value()))
    {
      failures := 0;
      if state == HalfOpen {
        state := Closed;
      }
    }

    method Failure(now: int)
      modifies this
      ensures Value() == AfterFailure(config, old(Value()), now)
    {
      failures := failures + 1;
      match state {
        case HalfOpen => state, openedAt := Open, now;
        case Closed =>
          if failures >= config.threshold {
            state, openedAt := Open, now;
          }
        case Open =>
      }
    }
  }

  /** ---------- Any calls in any order ---------- */

  datatype Op = Allow(at: int) | Success | Failure(at: int)

  function Apply(c: Config, b: Breaker, op: Op): Breaker {
    match op
    case Allow(at) => AfterAllow(c, b, at)
    case Success => AfterSuccess(b)
    case Failure(at) => AfterFailure(c, b, at)
  }

  /** The breaker after `ops`, oldest first. */
  function Run(c: Config, ops: seq<Op>): Breaker {
    if ops == [] then FRESH else Apply(c, Run(c, ops[..|ops| - 1]), ops[|ops| - 1])
  }

  /** Failures reported after the last success. */
  function FailuresSinceSuccess(ops: seq<Op>): nat {
    if ops == [] || ops[|ops| - 1].Success? then 0
    else FailuresSinceSuccess(ops[..|ops| - 1]) + (if ops[|ops| - 1].Failure? then 1 else 0)
  }

  /** However concurrent callers interleave, the counter is the failures since the last success, and the
      breaker is closed only while that is below the threshold. */
  lemma {:induction false} CounterIsRecentFailures(c: Config, ops: seq<Op>)
    requires 0 < c.threshold
    ensures Run(c, ops).failures == FailuresSinceSuccess(ops)
    ensures Run(c, ops).state == Closed ==> FailuresSinceSuccess(ops) < c.threshold
  {
    if ops != [] {
      CounterIsRecentFailures(c, ops[..|ops| - 1]);
    }
  }

  /** The breaker opens no sooner than it must: it leaves the closed state exactly at the threshold-th failure in a row. */
  lemma OpensAtThreshold(c: Config, ops: seq<Op>, at: int)
    requires 0 < c.threshold && Run(c, ops).state == Closed
    ensures Run(c, ops + [Failure(at)]).state == Open <==> FailuresSinceSuccess(ops) + 1 == c.threshold
    ensures forall now :: now < at + c.cooldown && Run(c, ops + [Failure(at)]).state == Open ==>
              !Admits(c, Run(c, ops + [Failure(at)]), now)
  {
    CounterIsRecentFailures(c, ops);
    var more := ops + [Failure(at)];
    assert more[..|more| - 1] == ops;
  }

  /** ---------- Recovery ---------- */

  /** Calls that ask before `until`, with any results coming in meanwhile. */
  predicate AskBefore(ops: seq<Op>, until: int) { forall k :: 0 <= k < |ops| && ops[k].Allow? ==> ops[k].at < until }

  lemma {:induction false} StaysOpen(c: Config, ops: seq<Op>, at: int, between: seq<Op>)
    requires Run(c, ops).state != Open && Run(c, ops + [Failure(at)]).state == Open
    requires AskBefore(between, at + c.cooldown)
    ensures Run(c, ops + [Failure(at)] + between).state == Open
    ensures Run(c, ops + [Failure(at)] + between).openedAt == at
    decreases |between|
  {
    var tripped := ops + [Failure(at)];
    assert tripped[..|tripped| - 1] == ops;
    if between == [] {
      assert tripped + between == tripped;
    } else {
      var n := |between| - 1;
      StaysOpen(c, ops, at, between[..n]);
      var all := tripped + between;
      assert all[..|all| - 1] == tripped + between[..n] && all[|all| - 1] == between[n];
    }
  }

  /** Once a failure has tripped the breaker, a request is admitted exactly from one cooldown after it on,
      whatever results come in meanwhile. */
  lemma AdmitsAgainExactly(c: Config, ops: seq<Op>, at: int, between: seq<Op>, now: int)
    requires Run(c, ops).state != Open && Run(c, ops + [Failure(at)]).state == Open
    requires AskBefore(between, at + c.cooldown)
    ensures Admits(c, Run(c, ops + [Failure(at)] + between), now) <==> at + c.cooldown <= now
  {
    StaysOpen(c, ops, at, between);
  }

  function Failures(times: seq<int>): seq<Op> { seq(|times|, i requires 0 <= i < |times| => Failure(times[i])) }

  lemma RunOneMore(c: Config, ops: seq<Op>, op: Op)
    ensures Run(c, ops + [op]) == Apply(c, Run(c, ops), op)
  {
    assert (ops + [op])[..|ops|] == ops;
  }

  lemma {:induction false} CountsFromZero(c: Config, ops: seq<Op>, times: seq<int>)
    requires 0 < c.threshold && Run(c, ops).state == Closed && Run(c, ops).failures == 0
    ensures Run(c, ops + Failures(times)).state == Open <==> c.threshold <= |times|
    ensures |times| < c.threshold ==>
      Run(c, ops + Failures(times)).state == Closed && Run(c, ops + Failures(times)).failures == |times|
    ensures Run(c, ops + Failures(times)).state != HalfOpen
    decreases |times|
  {
    if times == [] {
      assert ops + Failures(times) == ops;
    } else {
      var n := |times| - 1;
      CountsFromZero(c, ops, times[..n]);
      RunOneMore(c, ops + Failures(times[..n]), Failure(times[n]));
      assert ops + Failures(times) == ops + Failures(times[..n]) + [Failure(times[n])];
    }
  }

  /** The first request after the cooldown is a probe, and until its result is in others are let through as well.
      If it succeeds the breaker is closed with its counter at 0, and it takes a full threshold of failures to open
      it again; if it fails the breaker is open at once. */
  lemma ProbeDecides(c: Config, ops: seq<Op>, at: int, between: seq<Op>, now: int, times: seq<int>)
    requires 0 < c.threshold && Run(c, ops).state != Open && Run(c, ops + [Failure(at)]).state == Open
    requires AskBefore(between, at + c.cooldown) && at + c.cooldown <= now
    ensures var probed := ops + [Failure(at)] + between + [Allow(now)];
      && (forall t :: Admits(c, Run(c, probed), t))
      && Run(c, probed + [Success]).state == Closed && Run(c, probed + [Success]).failures == 0
      && (Run(c, probed + [Success] + Failures(times)).state == Open <==> c.threshold <= |times|)
      && (forall t :: Run(c, probed + [Failure(t)]).state == Open && Run(c, probed + [Failure(t)]).openedAt == t)
  {
    var before := ops + [Failure(at)] + between;
    var probed := before + [Allow(now)];
    StaysOpen(c, ops, at, between);
    RunOneMore(c, before, Allow(now));
    RunOneMore(c, probed, Success);
    CountsFromZero(c, probed + [Success], times);
    forall t
      ensures Run(c, probed + [Failure(t)]).state == Open && Run(c, probed + [Failure(t)]).openedAt == t
    {
      RunOneMore(c, probed, Failure(t));
    }
  }

  /** ---------- An outage seen by sequential callers ---------- */

  /** A request that asks at `at`; if admitted, its Redis call fails at `done`. */
  datatype Call = Call(at: int, done: int)

  predicate InTurn(from: int, calls: seq<Call>)
    decreases |calls|
  {
    calls == [] || (from <= calls[0].at <= calls[0].done && InTurn(calls[0].done, calls[1..]))
  }

  function AfterCall(c: Config, b: Breaker, call: Call): Breaker {
    if Admits(c, b, call.at) then AfterFailure(c, AfterAllow(c, b, call.at), call.done)
    else AfterAllow(c, b, call.at)
  }

  function Attempts(c: Config, b: Breaker, calls: seq<Call>): nat
    decreases |calls|
  {
    if calls == [] then 0
    else (if Admits(c, b, calls[0].at) then 1 else 0) + Attempts(c, AfterCall(c, b, calls[0]), calls[1..])
  }

  function Max(a: int, b: int): int { if a <= b then b else a }

  /** Once open, probes are at least a cooldown apart. */
  lemma {:induction false} ProbesAreSpaced(c: Config, b: Breaker, from: int, calls: seq<Call>, end: int)
    requires 0 < c.cooldown && b.state == Open && InTurn(from, calls)
    requires forall k :: 0 <= k < |calls| ==> calls[k].at <= end
    ensures Attempts(c, b, calls) * c.cooldown <= Max(0, end - b.openedAt)
    decreases |calls|
  {
    if calls != [] {
      var b' := AfterCall(c, b, calls[0]);
      assert forall k :: 0 <= k < |calls[1..]| ==> calls[1..][k] == calls[k + 1];
      ProbesAreSpaced(c, b', calls[0].done, calls[1..], end);
      if Admits(c, b, calls[0].at) {
        assert Attempts(c, b, calls) * c.cooldown == Attempts(c, b', calls[1..]) * c.cooldown + c.cooldown;
      }
    }
  }

  lemma NotPositiveTimes(n: int, c: int)
    requires n <= 0 < c
    ensures n * c <= 0
  {
  }

  lemma AtMostQuotient(n: int, c: int, t: nat)
    requires 0 < c && n * c <= t
    ensures n <= t / c
  {
    var q := t / c;
    assert t < q * c + c;
    assert (n - q - 1) * c == n * c - q * c - c;
    if 0 <= n - q - 1 {
      NotPositiveTimes(-(n - q - 1), c);
    }
  }

  lemma NoneInTurnAfter(from: int, calls: seq<Call>, end: int)
    requires InTurn(from, calls) && end < from
    requires forall k :: 0 <= k < |calls| ==> calls[k].at <= end
    ensures calls == []
  {
  }

  /** Attempts beyond those that trip the breaker are probes. */
  lemma {:induction false} OutageAttempts(c: Config, b: Breaker, from: int, calls: seq<Call>, end: int)
    requires 0 < c.cooldown && b.state == Closed && b.failures < c.threshold && InTurn(from, calls) && from <= end
    requires forall k :: 0 <= k < |calls| ==> calls[k].at <= end
    ensures (Attempts(c, b, calls) - (c.threshold - b.failures)) * c.cooldown <= end - from
    decreases |calls|
  {
    if calls == [] {
      NotPositiveTimes(b.failures - c.threshold, c.cooldown);
    } else {
      var b', rest := AfterCall(c, b, calls[0]), calls[1..];
      assert forall k :: 0 <= k < |rest| ==> rest[k] == calls[k + 1];
      if b'.state == Open {
        ProbesAreSpaced(c, b', calls[0].done, rest, end);
      } else if calls[0].done <= end {
        OutageAttempts(c, b', calls[0].done, rest, end);
      } else {
        NoneInTurnAfter(calls[0].done, rest, end);
        NotPositiveTimes(1 - (c.threshold - b.failures), c.cooldown);
      }
    }
  }

  /** In an outage that finds the breaker closed, sequential callers try Redis at most
      threshold + T / cooldown times in its first T time units. */
  lemma AttemptsBounded(c: Config, ops: seq<Op>, from: int, calls: seq<Call>, T: nat)
    requires 0 < c.threshold && 0 < c.cooldown && Run(c, ops).state == Closed && InTurn(from, calls)
    requires forall k :: 0 <= k < |calls| ==> calls[k].at <= from + T
    ensures Attempts(c, Run(c, ops), calls) <= c.threshold - FailuresSinceSuccess(ops) + T / c.cooldown
  {
    CounterIsRecentFailures(c, ops);
    var b := Run(c, ops);
    OutageAttempts(c, b, from, calls, from + T);
    AtMostQuotient(Attempts(c, b, calls) - (c.threshold - b.failures), c.cooldown, T);
  }

  /** ---------- The middleware ---------- */

  datatype Answer = Granted | Refused | Unreachable

  /** One `RateLimit` handler with Redis configured. */
  class RateLimiter {
    const breaker: Cell

    constructor (config: Config)
      ensures breaker.config == Effective(config) && breaker.Value() == FRESH && fresh(breaker)
    {
      breaker := new Cell(Effective(config));
    }

    /** One request: `l1` is the local bucket's answer and `redis` the one Redis would give, asked at `at`
        and answered at `done`. Only a refusal stops a request; an unreachable Redis never does. */
    method Handle(skipped: bool, l1: bool, redis: Answer, at: int, done: int) returns (passed: bool, asked: bool)
      modifies breaker
      ensures asked <==> !skipped && l1 && Admits(breaker.config, old(breaker.Value()), at)
      ensures passed <==> skipped || (l1 && !(asked && redis == Refused))
      ensures breaker.Value() ==
              if skipped || !l1 then old(breaker.Value())
              else if !asked then old(breaker.Value())
              else if redis == Unreachable then
                AfterFailure(breaker.config, AfterAllow(breaker.config, old(breaker.Value()), at), done)
              else AfterSuccess(AfterAllow(breaker.config, old(breaker.Value()), at))
    {
      if skipped {
        return true, false;
      }
      if !l1 {
        return false, false;
      }
      asked := breaker.Allow(at);
      if !asked {
        return true, false;
      }
      if redis == Unreachable {
        breaker.Failure(done);
        return true, true;
      }
      breaker.Success();
      return redis == Granted, true;
    }
  }
}
