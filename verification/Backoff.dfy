/** The outbox publisher's retry timers: the doubling loop and the clean-up of old timers. */
module Backoff {
  newtype int64 = x: int | -0x8000_0000_0000_0000 <= x < 0x8000_0000_0000_0000

  type EventId = nat

  // time.Duration counts nanoseconds.
  const MAX_BACKOFF: int64 := 30_000_000_000

  function Pow2(k: nat): (p: nat)
    ensures 1 <= p
  {
    if k == 0 then 1 else 2 * Pow2(k - 1)
  }

  function Min(a: int, b: int): int { if a <= b then a else b }

  function Doubled(interval: nat, k: nat): int { interval * Pow2(k) }

  /** What the retry policy asks for: double per retry, capped. */
  function Backoff(interval: nat, retryCount: int): nat {
    Min(Doubled(interval, if retryCount < 0 then 0 else retryCount), MAX_BACKOFF as int)
  }

  lemma DoubledOnce(interval: nat, i: nat)
    ensures Doubled(interval, i + 1) == 2 * Doubled(interval, i)
  {
  }

  lemma {:induction false} DoublingOnlyGrows(interval: nat, i: nat, k: nat)
    requires i <= k
    ensures Doubled(interval, i) <= Doubled(interval, k)
    ensures 0 <= Doubled(interval, i)
    decreases k - i
  {
    if i < k {
      DoublingOnlyGrows(interval, i, k - 1);
      DoubledOnce(interval, k - 1);
    }
  }

  /** Half the cap reached with doublings left: the cap is what the policy asks for. */
  lemma CapIsReached(interval: nat, i: nat, retryCount: int)
    requires i < retryCount && MAX_BACKOFF as int <= 2 * Doubled(interval, i)
    ensures Backoff(interval, retryCount) == MAX_BACKOFF as int
  {
    DoubledOnce(interval, i);
    DoublingOnlyGrows(interval, i + 1, retryCount);
  }

  /** In plain numbers: no retries wait the interval itself, each further one twice as long, and none more than
      30 seconds. */
  lemma WaitsDouble(interval: nat, retryCount: int)
    ensures retryCount <= 0 ==>
      Backoff(interval, retryCount) == if interval <= 30_000_000_000 then interval else 30_000_000_000
    ensures 0 <= retryCount ==>
      var wait := Backoff(interval, retryCount);
      Backoff(interval, retryCount + 1) == if 2 * wait <= 30_000_000_000 then 2 * wait else 30_000_000_000
  {
    if 0 <= retryCount { DoubledOnce(interval, retryCount); DoublingOnlyGrows(interval, retryCount, retryCount); }
  }

  /** Every intermediate value is an `int64`: the type of `d` is the proof that doubling never overflows. */
  method BackoffDuration(interval: int64, retryCount: int) returns (d: int64)
    requires 0 <= interval
    ensures d as int == Backoff(interval as int, retryCount)
  {
    d := interval;
    var i := 0;
    while i < retryCount
      invariant 0 <= i && (i <= retryCount || i == 0)
      invariant d as int == Doubled(interval as int, i)
    {
      if d >= MAX_BACKOFF / 2 {
        CapIsReached(interval as int, i, retryCount);
        return MAX_BACKOFF;
      }
      DoubledOnce(interval as int, i);
      d := d * 2;
      i := i + 1;
    }
    if d > MAX_BACKOFF {
      return MAX_BACKOFF;
    }
  }

  /** ---------- Timers ---------- */

  type Timers = map<EventId, int>

  predicate InBackoff(m: Timers, id: EventId, now: int) { id in m && now < m[id] }

  function Expired(m: Timers, now: int): set<EventId> { set id | id in m && m[id] < now }

  datatype Op = Set(at: int, id: EventId, wait: nat) | Clear(at: int, id: EventId) | Cleanup(at: int)

  function Apply(m: Timers, op: Op): Timers {
    match op
    case Set(at, id, wait) => m[id := at + wait]
    case Clear(_, id) => m - {id}
    case Cleanup(at) => m - Expired(m, at)
  }

  /** A clean-up takes away exactly the timers that ran out before it, and leaves the others as they are. */
  lemma CleanupTakes(m: Timers, at: int, id: EventId)
    ensures var left := Apply(m, Cleanup(at));
      (id in left <==> id in m && at <= m[id]) && (id in left ==> left[id] == m[id])
  {
  }

  class RetryTimers {
    var retryTimers: map<EventId, int>

    constructor ()
      ensures retryTimers == map[]
    {
      retryTimers := map[];
    }

    method CleanupBackoff(now: int)
      modifies this
      ensures retryTimers == Apply(old(retryTimers), Cleanup(now))
    {
      var todo := retryTimers.Keys;
      while todo != {}
        invariant todo <= old(retryTimers).Keys
        invariant retryTimers == old(retryTimers) - (Expired(old(retryTimers), now) - todo)
      {
        var id :| id in todo;
        if retryTimers[id] < now {
          retryTimers := retryTimers - {id};
        }
        todo := todo - {id};
      }
      assert Expired(old(retryTimers), now) - todo == Expired(old(retryTimers), now);
    }

    method IsInBackoff(id: EventId, now: int) returns (waiting: bool)
      ensures waiting <==> InBackoff(retryTimers, id, now)
    {
      waiting := id in retryTimers && now < retryTimers[id];
    }

    method SetBackoff(id: EventId, now: int, interval: int64, retryCount: int)
      requires 0 <= interval
      modifies this
      ensures retryTimers == Apply(old(retryTimers), Set(now, id, Backoff(interval as int, retryCount)))
    {
      var d := BackoffDuration(interval, retryCount);
      retryTimers := retryTimers[id := now + d as int];
    }

    method ClearBackoff(id: EventId, now: int)
      modifies this
      ensures retryTimers == Apply(old(retryTimers), Clear(now, id))
    {
      retryTimers := retryTimers - {id};
    }
  }

  function Run(m: Timers, ops: seq<Op>): Timers
    decreases |ops|
  {
    if ops == [] then m else Run(Apply(m, ops[0]), ops[1..])
  }

  /** The same calls with every clean-up left out. */
  function WithoutCleanups(ops: seq<Op>): seq<Op> {
    if ops == [] then []
    else if ops[0].Cleanup? then WithoutCleanups(ops[1..])
    else [ops[0]] + WithoutCleanups(ops[1..])
  }

  predicate InTimeOrder(from: int, ops: seq<Op>)
    decreases |ops|
  {
    ops == [] || (from <= ops[0].at && InTimeOrder(ops[0].at, ops[1..]))
  }

  function LastTime(from: int, ops: seq<Op>): int
    decreases |ops|
  {
    if ops == [] then from else LastTime(ops[0].at, ops[1..])
  }

  /** From time `t` on, the two timer maps give the same answers. */
  ghost predicate Agree(m: Timers, m': Timers, t: int) {
    forall id, now :: t <= now ==> (InBackoff(m, id, now) <==> InBackoff(m', id, now))
  }

  lemma {:induction false} AgreementKept(m: Timers, m': Timers, from: int, ops: seq<Op>)
    requires Agree(m, m', from) && InTimeOrder(from, ops)
    ensures Agree(Run(m, ops), Run(m', WithoutCleanups(ops)), LastTime(from, ops))
    decreases |ops|
  {
    if ops != [] {
      var op, rest := ops[0], ops[1..];
      if op.Cleanup? {
        AgreementKept(Apply(m, op), m', op.at, rest);
      } else {
        assert WithoutCleanups(ops)[0] == op && WithoutCleanups(ops)[1..] == WithoutCleanups(rest);
        forall other, now | op.at <= now
          ensures InBackoff(Apply(m, op), other, now) <==> InBackoff(Apply(m', op), other, now)
        {
          assert InBackoff(m, other, now) <==> InBackoff(m', other, now);
        }
        AgreementKept(Apply(m, op), Apply(m', op), op.at, rest);
      }
    }
  }

  /** Cleaning up at any times never changes what `inBackoff` later answers. */
  lemma CleanupIsInvisible(ops: seq<Op>, start: int, id: EventId, now: int)
    requires InTimeOrder(start, ops) && LastTime(start, ops) <= now
    ensures InBackoff(Run(map[], ops), id, now) <==> InBackoff(Run(map[], WithoutCleanups(ops)), id, now)
  {
    AgreementKept(map[], map[], start, ops);
  }

  /** A failed event waits its full back-off and no longer, whatever clean-ups and other events come in between. */
  lemma {:induction false} WaitsExactly(m: Timers, id: EventId, until: int, from: int, ops: seq<Op>, now: int)
    requires id in m && m[id] == until
    requires InTimeOrder(from, ops) && LastTime(from, ops) <= now
    requires forall k :: 0 <= k < |ops| ==> ops[k].Cleanup? || ops[k].id != id
    ensures InBackoff(Run(m, ops), id, now) <==> now < until
    decreases |ops|
  {
    if ops != [] {
      var m' := Apply(m, ops[0]);
      assert forall k :: 0 <= k < |ops[1..]| ==> ops[1..][k] == ops[k + 1];
      if id in m' {
        WaitsExactly(m', id, until, ops[0].at, ops[1..], now);
      } else {
        StaysOut(m', id, ops[1..], now);
        LastTimeGrows(ops[0].at, ops[1..]);
      }
    }
  }

  lemma {:induction false} StaysOut(m: Timers, id: EventId, ops: seq<Op>, now: int)
    requires id !in m && forall k :: 0 <= k < |ops| ==> ops[k].Cleanup? || ops[k].id != id
    ensures !InBackoff(Run(m, ops), id, now)
    decreases |ops|
  {
    if ops != [] {
      assert forall k :: 0 <= k < |ops[1..]| ==> ops[1..][k] == ops[k + 1];
      StaysOut(Apply(m, ops[0]), id, ops[1..], now);
    }
  }

  lemma {:induction false} LastTimeGrows(from: int, ops: seq<Op>)
    requires InTimeOrder(from, ops)
    ensures from <= LastTime(from, ops)
    decreases |ops|
  {
    if ops != [] {
      LastTimeGrows(ops[0].at, ops[1..]);
    }
  }
}
