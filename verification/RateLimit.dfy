/**
 The gateway's token bucket. Tokens and rates are exact reals; times are the integer milliseconds the
 callers pass in, which may jump back when two replicas' clocks disagree.
 */
module RateLimit {
  import opened Wrappers

  datatype Config = Config(rate: real, burst: nat, ttl: nat)   // tokens per second, tokens, whole seconds

  /** The hash at the bucket key; a script call writes both fields. */
  datatype Stored = Stored(tokens: real, ts: int)

  predicate Usable(c: Config) { 0.0 < c.rate && 0 < c.burst }

  function Refill(c: Config, elapsed: int): real { elapsed as real / 1000.0 * c.rate }

  /** What the bucket holds at `now`, before this call takes its token. */
  function Level(c: Config, b: Option<Stored>, now: int): real {
    match b
    case None => c.burst as real
    case Some(s) => Min(c.burst as real, s.tokens + Refill(c, now - s.ts))
  }

  function Min(a: real, b: real): real { if a <= b then a else b }

  predicate Allows(c: Config, b: Option<Stored>, now: int) { 1.0 <= Level(c, b, now) }

  function After(c: Config, b: Option<Stored>, now: int): Stored {
    Stored(Level(c, b, now) - (if Allows(c, b, now) then 1.0 else 0.0), now)
  }

  /** The bucket key of one client address. */
  class Bucket {
    const config: Config
    var key: Option<Stored>
    var expireAt: int

    constructor (config: Config)
      ensures this.config == config && key == None
    {
      this.config, key, expireAt := config, None, 0;
    }

    /** `allowTokensScript`, without the clean-up Redis does on its own (`Expire`). */
    method Allow(now: int) returns (allowed: bool)
      modifies this
      ensures allowed == Allows(config, old(key), now)
      ensures key == Some(After(config, old(key), now)) && expireAt == now + 1000 * config.ttl
    {
      var tokens := config.burst as real;
      var ts := now;
      if key.Some? {
        tokens, ts := key.value.tokens, key.value.ts;
      }
      var refill := Refill(config, now - ts);
      assert key.None? ==> refill == 0.0;
      tokens := if tokens + refill <= config.burst as real then tokens + refill else config.burst as real;
      allowed := tokens >= 1.0;
      if allowed {
        tokens := tokens - 1.0;
      }
      key := Some(Stored(tokens, now));
      expireAt := now + 1000 * config.ttl;
    }

    method Expire(now: int)
      modifies this`key
      ensures key == Visible(old(key), expireAt, now)
    {
      if expireAt <= now {
        key := None;
      }
    }
  }

  /** ---------- The window law, for any timestamps ---------- */

  /** The bucket before the k-th call of a run that never loses its key. */
  function Before(c: Config, times: seq<int>, k: nat): Option<Stored>
    requires k <= |times|
  {
    if k == 0 then None else Some(After(c, Before(c, times, k - 1), times[k - 1]))
  }

  predicate Allowed(c: Config, times: seq<int>, k: nat)
    requires k < |times|
  {
    Allows(c, Before(c, times, k), times[k])
  }

  /** How many of the calls i, ..., k - 1 were allowed. */
  function AllowedSince(c: Config, times: seq<int>, i: nat, k: nat): nat
    requires i <= k <= |times|
  {
    if i == k then 0 else AllowedSince(c, times, i, k - 1) + (if Allowed(c, times, k - 1) then 1 else 0)
  }

  /** What a window opened at call i leaves for call k. */
  function WindowRoom(c: Config, times: seq<int>, i: nat, k: nat): real
    requires i <= k < |times|
  {
    c.burst as real + (times[k] - times[i]) as real / 1000.0 * c.rate - AllowedSince(c, times, i, k) as real
  }

  function LevelAt(c: Config, times: seq<int>, k: nat): real
    requires k < |times|
  {
    Level(c, Before(c, times, k), times[k])
  }

  lemma RefillAdds(c: Config, a: int, b: int)
    ensures Refill(c, a + b) == Refill(c, a) + Refill(c, b)
  {
    var x, y, r := a as real, b as real, c.rate;
    assert (x + y) / 1000.0 * r == x / 1000.0 * r + y / 1000.0 * r;
  }

  function Taken(c: Config, times: seq<int>, k: nat): real
    requires k < |times|
  {
    if Allowed(c, times, k) then 1.0 else 0.0
  }

  lemma LevelAdvances(c: Config, times: seq<int>, k: nat)
    requires 0 < k < |times|
    ensures LevelAt(c, times, k) ==
            Min(c.burst as real, LevelAt(c, times, k - 1) - Taken(c, times, k - 1) + Refill(c, times[k] - times[k - 1]))
  {
  }

  lemma WindowAdvances(c: Config, times: seq<int>, i: nat, k: nat)
    requires i < k < |times|
    ensures WindowRoom(c, times, i, k) ==
            WindowRoom(c, times, i, k - 1) - Taken(c, times, k - 1) + Refill(c, times[k] - times[k - 1])
  {
    RefillAdds(c, times[k - 1] - times[i], times[k] - times[k - 1]);
    assert times[k - 1] - times[i] + (times[k] - times[k - 1]) == times[k] - times[i];
    assert WindowRoom(c, times, i, k) ==
      c.burst as real + Refill(c, times[k] - times[i]) - AllowedSince(c, times, i, k) as real;
    assert WindowRoom(c, times, i, k - 1) ==
      c.burst as real + Refill(c, times[k - 1] - times[i]) - AllowedSince(c, times, i, k - 1) as real;
  }

  lemma EmptyWindow(c: Config, times: seq<int>, k: nat)
    requires k < |times|
    ensures WindowRoom(c, times, k, k) == c.burst as real
  {
  }

  /** No window has less room than the bucket holds. */
  lemma {:induction false} LevelWithinWindow(c: Config, times: seq<int>, i: nat, k: nat)
    requires i <= k < |times|
    ensures LevelAt(c, times, k) <= WindowRoom(c, times, i, k)
    decreases k
  {
    if i == k {
      EmptyWindow(c, times, k);
    } else {
      LevelWithinWindow(c, times, i, k - 1);
      LevelAdvances(c, times, k);
      WindowAdvances(c, times, i, k);
    }
  }

  /** Some window has exactly that room. */
  lemma {:induction false} LevelIsSomeWindow(c: Config, times: seq<int>, k: nat) returns (i: nat)
    requires k < |times|
    ensures i <= k && LevelAt(c, times, k) == WindowRoom(c, times, i, k)
  {
    EmptyWindow(c, times, k);
    if k == 0 || LevelAt(c, times, k) == c.burst as real {
      i := k;
    } else {
      i := LevelIsSomeWindow(c, times, k - 1);
      LevelAdvances(c, times, k);
      WindowAdvances(c, times, i, k);
    }
  }

  /** The bucket's recurrence is the minimum over all windows: no window has less room, and some window has just that. */
  lemma LevelIsLeastRoom(c: Config, times: seq<int>, k: nat)
    requires k < |times|
    ensures forall i :: 0 <= i <= k ==> LevelAt(c, times, k) <= WindowRoom(c, times, i, k)
    ensures exists i :: 0 <= i <= k && LevelAt(c, times, k) == WindowRoom(c, times, i, k)
  {
    forall i | 0 <= i <= k ensures LevelAt(c, times, k) <= WindowRoom(c, times, i, k) {
      LevelWithinWindow(c, times, i, k);
    }
    var j := LevelIsSomeWindow(c, times, k);
  }

  /** The calls allowed since call i, with call k, stay within burst + rate x the time between them. */
  predicate FitsWindow(c: Config, times: seq<int>, i: nat, k: nat)
    requires i <= k < |times|
  {
    AllowedSince(c, times, i, k) as real + 1.0 <= c.burst as real + (times[k] - times[i]) as real / 1000.0 * c.rate
  }

  lemma FitsIffRoom(c: Config, times: seq<int>, i: nat, k: nat)
    requires i <= k < |times|
    ensures FitsWindow(c, times, i, k) <==> 1.0 <= WindowRoom(c, times, i, k)
  {
  }

  /** A call is allowed exactly when it fits every window since an earlier call. */
  lemma AllowedIffWithinEveryWindow(c: Config, times: seq<int>, k: nat)
    requires Usable(c) && k < |times|
    ensures Allowed(c, times, k) <==> forall i :: 0 <= i < k ==> FitsWindow(c, times, i, k)
  {
    EmptyWindow(c, times, k);
    var j := LevelIsSomeWindow(c, times, k);
    FitsIffRoom(c, times, j, k);
    if Allowed(c, times, k) {
      forall i | 0 <= i < k ensures FitsWindow(c, times, i, k) {
        LevelWithinWindow(c, times, i, k);
        FitsIffRoom(c, times, i, k);
      }
    }
  }

  /** ---------- Key expiry ---------- */

  /** The key as a script at `now` finds it: EXPIRE set its deadline at the last call. */
  function Visible(b: Option<Stored>, expireAt: int, now: int): Option<Stored> {
    if expireAt <= now then None else b
  }

  function Deadline(c: Config, b: Option<Stored>): int {
    match b
    case None => 0
    case Some(s) => s.ts + 1000 * c.ttl
  }

  /** The bucket before the k-th call when Redis drops the key at its deadline. */
  function BeforeWithExpiry(c: Config, times: seq<int>, k: nat): Option<Stored>
    requires k <= |times|
    decreases k, 0
  {
    if k == 0 then None
    else Some(After(c, FoundWithExpiry(c, times, k - 1), times[k - 1]))
  }

  function FoundWithExpiry(c: Config, times: seq<int>, k: nat): Option<Stored>
    requires k < |times|
    decreases k, 1
  {
    if k == 0 then None
    else Visible(BeforeWithExpiry(c, times, k), Deadline(c, BeforeWithExpiry(c, times, k)), times[k])
  }

  predicate AllowedWithExpiry(c: Config, times: seq<int>, k: nat)
    requires k < |times|
  {
    Allows(c, FoundWithExpiry(c, times, k), times[k])
  }

  predicate Monotone(times: seq<int>) { forall i, j :: 0 <= i < j < |times| ==> times[i] <= times[j] }

  /** A bucket left alone for its whole TTL has filled up, so losing it changes nothing. */
  lemma FullByDeadline(c: Config, s: Stored, now: int)
    requires 0.0 <= s.tokens && 0.0 < c.rate && c.burst as real <= c.ttl as real * c.rate
    requires s.ts + 1000 * c.ttl <= now
    ensures Level(c, Some(s), now) == c.burst as real
  {
    var waited := (now - s.ts) as real / 1000.0;
    assert c.ttl as real <= waited;
    assert c.ttl as real * c.rate <= waited * c.rate;
  }

  lemma {:induction false} TokensInRange(c: Config, times: seq<int>, k: nat)
    requires Usable(c) && Monotone(times) && 0 < k <= |times|
    ensures var b := Before(c, times, k);
            b.Some? && b.value.ts == times[k - 1] && 0.0 <= b.value.tokens <= c.burst as real
  {
    if k > 1 {
      TokensInRange(c, times, k - 1);
      var s := Before(c, times, k - 1).value;
      assert 0.0 <= (times[k - 1] - s.ts) as real / 1000.0;
      assert 0.0 <= (times[k - 1] - s.ts) as real / 1000.0 * c.rate;
    }
  }

  lemma {:induction false} ExpiryTracksBucket(c: Config, times: seq<int>, k: nat)
    requires Usable(c) && Monotone(times) && c.burst as real <= c.ttl as real * c.rate && k < |times|
    ensures Level(c, FoundWithExpiry(c, times, k), times[k]) == Level(c, Before(c, times, k), times[k])
  {
    if k > 0 {
      ExpiryTracksBucket(c, times, k - 1);
      assert BeforeWithExpiry(c, times, k) == Before(c, times, k);
      TokensInRange(c, times, k);
      var s := Before(c, times, k).value;
      if s.ts + 1000 * c.ttl <= times[k] {
        FullByDeadline(c, s, times[k]);
      }
    }
  }

  /** With a TTL long enough to refill the whole burst, every answer is as if the key never expired. */
  lemma ExpiryIsInvisible(c: Config, times: seq<int>, k: nat)
    requires Usable(c) && Monotone(times) && c.burst as real <= c.ttl as real * c.rate && k < |times|
    ensures AllowedWithExpiry(c, times, k) <==> Allowed(c, times, k)
  {
    ExpiryTracksBucket(c, times, k);
  }

  ghost predicate ExpiryNeverShows(c: Config) {
    forall times, k :: Monotone(times) && 0 <= k < |times| ==> (AllowedWithExpiry(c, times, k) <==> Allowed(c, times, k))
  }

  /** A burst at time 0, and another when the key has just expired. */
  function TwoBursts(c: Config): seq<int> {
    seq(2 * c.burst, i => if i < c.burst then 0 else 1000 * c.ttl)
  }

  lemma {:induction false} FirstBurstSpent(c: Config, k: nat)
    requires Usable(c) && k <= c.burst
    ensures k > 0 ==> Before(c, TwoBursts(c), k) == Some(Stored((c.burst - k) as real, 0))
    ensures k < c.burst ==> Allowed(c, TwoBursts(c), k)
  {
    if k > 0 {
      FirstBurstSpent(c, k - 1);
    }
  }

  predicate SecondBurstAllowed(c: Config, m: nat)
    requires m < c.burst
  {
    Allowed(c, TwoBursts(c), c.burst + m)
  }

  lemma SecondBurstBegins(c: Config)
    requires Usable(c) && c.ttl as real * c.rate < c.burst as real
    ensures LevelAt(c, TwoBursts(c), c.burst) == c.ttl as real * c.rate
  {
    var times := TwoBursts(c);
    FirstBurstSpent(c, c.burst);
    assert times[c.burst] == 1000 * c.ttl;
    assert (1000 * c.ttl) as real / 1000.0 == c.ttl as real;
  }

  lemma SameInstant(c: Config, m: nat)
    requires 0 < m < c.burst
    ensures Refill(c, TwoBursts(c)[c.burst + m] - TwoBursts(c)[c.burst + m - 1]) == 0.0
  {
  }

  /** Without expiry the second burst draws on what one TTL refills, less than a burst. */
  lemma {:induction false} SecondBurstDraws(c: Config, m: nat)
    requires Usable(c) && c.ttl as real * c.rate < c.burst as real && m < c.burst
    requires forall j :: 0 <= j < m ==> SecondBurstAllowed(c, j)
    ensures LevelAt(c, TwoBursts(c), c.burst + m) == c.ttl as real * c.rate - m as real
  {
    if m == 0 {
      SecondBurstBegins(c);
    } else {
      SecondBurstDraws(c, m - 1);
      assert SecondBurstAllowed(c, m - 1);
      LevelAdvances(c, TwoBursts(c), c.burst + m);
      SameInstant(c, m);
    }
  }

  /** With expiry the bucket starts afresh and allows the second burst whole. */
  lemma {:induction false} SecondBurstStartsFull(c: Config, m: nat)
    requires Usable(c) && m < c.burst
    ensures AllowedWithExpiry(c, TwoBursts(c), c.burst + m)
  {
    var times := TwoBursts(c);
    SecondBurstLevel(c, m);
  }

  lemma {:induction false} SecondBurstLevel(c: Config, m: nat)
    requires Usable(c) && m < c.burst
    ensures var times := TwoBursts(c);
            var found := FoundWithExpiry(c, times, c.burst + m);
            Level(c, found, times[c.burst + m]) >= (c.burst - m) as real
  {
    var times := TwoBursts(c);
    var k := c.burst + m;
    assert BeforeWithExpiry(c, times, k).value.ts == times[k - 1];
    if m > 0 {
      SecondBurstLevel(c, m - 1);
      assert (times[k] - times[k - 1]) as real / 1000.0 * c.rate == 0.0;
    }
  }

  /** Key expiry never shows in an answer exactly when the TTL refills the whole burst. */
  lemma ExpiryInvisibleExactly(c: Config)
    requires Usable(c)
    ensures ExpiryNeverShows(c) <==> c.burst as real <= c.ttl as real * c.rate
  {
    if c.burst as real <= c.ttl as real * c.rate {
      forall times, k | Monotone(times) && 0 <= k < |times|
        ensures AllowedWithExpiry(c, times, k) <==> Allowed(c, times, k)
      {
        ExpiryIsInvisible(c, times, k);
      }
    } else {
      var times := TwoBursts(c);
      assert Monotone(times);
      var m := SecondBurstCutShort(c);
      SecondBurstStartsFull(c, m);
    }
  }

  lemma SecondBurstCutShort(c: Config) returns (m: nat)
    requires Usable(c) && c.ttl as real * c.rate < c.burst as real
    ensures m < c.burst && !SecondBurstAllowed(c, m)
  {
    if j :| 0 <= j < c.burst - 1 && !SecondBurstAllowed(c, j) {
      m := j;
    } else {
      m := c.burst - 1;
      SecondBurstDraws(c, m);
    }
  }
}
