/**
 When the outbox publisher tries a row again, in runs with every kind of failure: which rows a poll takes, how
 long a failed row is held back, and after how many failures it is given up. Times are nanoseconds.
 */
module PublisherWaits {
  import opened ChatTables
  import opened Wrappers
  import opened Pipeline
  import Backoff

  /** ---------- What a poll takes ---------- */

  predicate IsDue(row: OutboxRow) { !row.published && row.retryCount < 20 }

  /** `batch` lists due rows of `outbox` in ascending order, all of them from `i` on, or `n` of them and then no
      due row before the last one is left out. */
  ghost predicate TakesOldest(outbox: seq<OutboxRow>, i: nat, n: nat, batch: seq<nat>) {
    && |batch| <= n
    && (forall k :: 0 <= k < |batch| ==> i <= batch[k] < |outbox| && IsDue(outbox[batch[k]]))
    && (forall j, k :: 0 <= j < k < |batch| ==> batch[j] < batch[k])
    && (forall r :: i <= r < |outbox| && IsDue(outbox[r]) ==> r in batch || IsPast(batch, n, r))
  }

  /** `batch` is full, and row `r` comes after all of it. */
  ghost predicate IsPast(batch: seq<nat>, n: nat, r: nat) {
    |batch| == n && forall k :: 0 <= k < n ==> batch[k] < r
  }

  lemma TakesOneMore(outbox: seq<OutboxRow>, i: nat, n: nat, rest: seq<nat>)
    requires i < |outbox| && n > 0 && IsDue(outbox[i]) && TakesOldest(outbox, i + 1, n - 1, rest)
    ensures TakesOldest(outbox, i, n, [i] + rest)
  {
    var batch := [i] + rest;
    assert batch[0] == i && forall k :: 1 <= k < |batch| ==> batch[k] == rest[k - 1];
    forall r | i <= r < |outbox| && IsDue(outbox[r])
      ensures r in batch || IsPast(batch, n, r)
    {
      if r != i && r !in rest { assert IsPast(rest, n - 1, r); }
    }
  }

  lemma {:induction false} PendingTakesOldest(outbox: seq<OutboxRow>, i: nat, n: nat)
    requires i <= |outbox|
    ensures TakesOldest(outbox, i, n, Pending(outbox, i, n))
    decreases |outbox| - i
  {
    if n > 0 && i < |outbox| {
      if IsDue(outbox[i]) {
        PendingTakesOldest(outbox, i + 1, n - 1);
        TakesOneMore(outbox, i, n, Pending(outbox, i + 1, n - 1));
      } else {
        PendingTakesOldest(outbox, i + 1, n);
      }
    }
  }

  /** ---------- What every run keeps ---------- */

  ghost predicate Waiting(x: System, row: nat, retryCount: nat) {
    row < |x.outbox| && IsDue(x.outbox[row]) && x.outbox[row].retryCount == retryCount
  }

  /** The batch lists rows that are due, each with the count it has in the table; so is the row to be marked. A
      row has failed at most 20 times, and one that has is not published. */
  ghost predicate BatchMatches(x: System) {
    && (forall k :: 0 <= k < |x.batch| ==> Waiting(x, x.batch[k].row, x.batch[k].retryCount))
    && (forall j, k :: 0 <= j < k < |x.batch| ==> x.batch[j].row < x.batch[k].row)
    && (x.unmarked.Some? ==> x.unmarked.value < |x.outbox| && IsDue(x.outbox[x.unmarked.value]))
    && (x.unmarked.Some? ==> forall k :: 0 <= k < |x.batch| ==> x.unmarked.value < x.batch[k].row)
    && (forall i :: 0 <= i < |x.outbox| ==> GivenUpUnpublished(x.outbox[i]))
  }

  predicate GivenUpUnpublished(row: OutboxRow) { row.retryCount <= 20 && (row.retryCount == 20 ==> !row.published) }

  lemma PollKeepsBatch(x: System)
    requires BatchMatches(x) && Enabled(x, Poll)
    ensures BatchMatches(Apply(x, Poll))
  {
    PendingTakesOldest(x.outbox, 0, BATCH_SIZE);
  }

  lemma FailureKeepsBatch(x: System, stored: bool, incrementOk: bool)
    requires BatchMatches(x) && Enabled(x, PublishFails(stored, incrementOk))
    ensures BatchMatches(Apply(x, PublishFails(stored, incrementOk)))
  {
    var y := Apply(x, PublishFails(stored, incrementOk));
    assert forall k :: 0 <= k < |y.batch| ==> y.batch[k] == x.batch[k + 1];
    assert forall i :: 0 <= i < |x.outbox| && i != x.batch[0].row ==> y.outbox[i] == x.outbox[i];
    assert Waiting(x, x.batch[0].row, x.batch[0].retryCount);
  }

  lemma MarkKeepsBatch(x: System, ok: bool)
    requires BatchMatches(x) && Enabled(x, Mark(ok))
    ensures BatchMatches(Apply(x, Mark(ok)))
  {
    var y := Apply(x, Mark(ok));
    assert forall i :: 0 <= i < |x.outbox| && i != x.unmarked.value ==> y.outbox[i] == x.outbox[i];
  }

  lemma StepKeepsBatch(x: System, step: Step)
    requires BatchMatches(x)
    ensures BatchMatches(Apply(x, step))
  {
    var y := Apply(x, step);
    if Enabled(x, step) {
      match step
      case Poll => PollKeepsBatch(x);
      case PublishFails(stored, incrementOk) => FailureKeepsBatch(x, stored, incrementOk);
      case Mark(ok) => MarkKeepsBatch(x, ok);
      case Commit(e) => assert forall i :: 0 <= i < |x.outbox| ==> y.outbox[i] == x.outbox[i];
      case Publish => assert Waiting(x, x.batch[0].row, x.batch[0].retryCount);
      case _ =>
    }
  }

  lemma {:induction false} RunKeepsBatch(x: System, steps: seq<Step>)
    requires BatchMatches(x)
    ensures BatchMatches(Run(x, steps))
    decreases |steps|
  {
    if steps != [] {
      StepKeepsBatch(x, steps[0]);
      RunKeepsBatch(Apply(x, steps[0]), steps[1..]);
    }
  }

  ghost predicate Reachable(x: System) { exists start, steps :: Run(Init(start), steps) == x }

  lemma ReachableMatches(x: System)
    requires Reachable(x)
    ensures BatchMatches(x)
  {
    var start, steps :| Run(Init(start), steps) == x;
    RunKeepsBatch(Init(start), steps);
  }

  function RowsOf(batch: seq<Polled>): (rows: seq<nat>)
    ensures |rows| == |batch| && forall k :: 0 <= k < |batch| ==> rows[k] == batch[k].row
  {
    if batch == [] then [] else [batch[0].row] + RowsOf(batch[1..])
  }

  /** A poll takes the oldest rows that are not published and have failed fewer than 20 times, at most 50, and
      leaves none of them out before the last one it takes. */
  lemma PollTakesOldest(x: System)
    requires Enabled(x, Poll)
    ensures var b := Apply(x, Poll).batch;
      && TakesOldest(x.outbox, 0, 50, RowsOf(b))
      && (forall k :: 0 <= k < |b| ==> b[k].row < |x.outbox| && b[k].retryCount == x.outbox[b[k].row].retryCount)
  {
    PendingTakesOldest(x.outbox, 0, 50);
    assert RowsOf(Apply(x, Poll).batch) == Pending(x.outbox, 0, 50);
  }

  /** ---------- How long a failed row is held back ---------- */

  /** The wait after a failure with `k` failures counted before it: 200 ms after the first, and double each time
      up to 30 s. */
  function WaitAfter(k: nat): nat {
    if k == 0 then 200_000_000
    else if WaitAfter(k - 1) <= 15_000_000_000 then 2 * WaitAfter(k - 1)
    else 30_000_000_000
  }

  lemma {:induction false} WaitIsBackoff(k: nat)
    ensures Backoff.Backoff(INTERVAL as int, k + 1) == WaitAfter(k)
  {
    Backoff.WaitsDouble(INTERVAL as int, k);
    if k == 0 {
      Backoff.WaitsDouble(INTERVAL as int, 0);
    } else {
      WaitIsBackoff(k - 1);
    }
  }

  /** The step is an attempt to publish row `i`. */
  predicate Tries(x: System, step: Step, i: nat) {
    (step.Publish? || step.PublishFails?) && Enabled(x, step) && x.batch[0].row == i
  }

  predicate Fails(x: System, step: Step, i: nat) { Tries(x, step, i) && step.PublishFails? }

  /** Until `until`, row `i` has its timer. */
  ghost predicate HeldUntil(x: System, i: nat, until: int) {
    x.now < until ==> i in x.retryTimers && x.retryTimers[i] == until
  }

  lemma StepKeepsHeld(x: System, step: Step, i: nat, until: int)
    requires HeldUntil(x, i, until) && !step.Restart?
    ensures HeldUntil(Apply(x, step), i, until) && (Tries(x, step, i) ==> until <= x.now)
  {
  }

  /** `steps` from `x` has no restart, and at no step an attempt at row `i` before `until`. */
  ghost predicate TriedOnlyFrom(x: System, steps: seq<Step>, i: nat, until: int)
    decreases |steps|
  {
    steps == [] ||
    ((Tries(x, steps[0], i) ==> until <= x.now) && TriedOnlyFrom(Apply(x, steps[0]), steps[1..], i, until))
  }

  predicate NoRestart(steps: seq<Step>) { forall k :: 0 <= k < |steps| ==> !steps[k].Restart? }

  lemma {:induction false} HeldRowWaits(x: System, steps: seq<Step>, i: nat, until: int)
    requires HeldUntil(x, i, until) && NoRestart(steps)
    ensures TriedOnlyFrom(x, steps, i, until) && HeldUntil(Run(x, steps), i, until)
    decreases |steps|
  {
    if steps != [] {
      StepKeepsHeld(x, steps[0], i, until);
      HeldRowWaits(Apply(x, steps[0]), steps[1..], i, until);
    }
  }

  /** At no step of the run does publishing row `i` fail. */
  ghost predicate NeverFails(x: System, steps: seq<Step>, i: nat)
    decreases |steps|
  {
    steps == [] || (!Fails(x, steps[0], i) && NeverFails(Apply(x, steps[0]), steps[1..], i))
  }

  lemma {:induction false} NoLongerThan(x: System, steps: seq<Step>, i: nat, until: int)
    requires (i in x.retryTimers ==> x.retryTimers[i] == until) && NeverFails(x, steps, i)
    ensures var y := Run(x, steps); i in y.retryTimers ==> y.retryTimers[i] == until
    decreases |steps|
  {
    if steps != [] {
      NoLongerThan(Apply(x, steps[0]), steps[1..], i, until);
    }
  }

  /** A failed publish leaves the row with one failure more, if that was written, and with its timer. */
  lemma FailureIsCounted(x: System, i: nat, stored: bool, incrementOk: bool)
    requires Reachable(x) && Fails(x, PublishFails(stored, incrementOk), i)
    ensures i < |x.outbox|
    ensures var y := Apply(x, PublishFails(stored, incrementOk));
      && y.now == x.now && |y.outbox| == |x.outbox|
      && y.outbox[i].retryCount == x.outbox[i].retryCount + (if incrementOk then 1 else 0)
      && i in y.retryTimers && y.retryTimers[i] == x.now + WaitAfter(x.outbox[i].retryCount)
  {
    ReachableMatches(x);
    assert Waiting(x, x.batch[0].row, x.batch[0].retryCount);
    WaitIsBackoff(x.outbox[i].retryCount);
  }

  /** A row whose publish fails with `k` failures counted before is tried again only from then plus the wait for
      `k` on, in any run in which the publisher is not restarted. As long as it does not fail again, it is
      passed over exactly until that moment: from then on, its turn in a batch is a publish. */
  lemma HeldBackExactly(x: System, i: nat, stored: bool, incrementOk: bool, steps: seq<Step>)
    requires Reachable(x) && Fails(x, PublishFails(stored, incrementOk), i) && i < |x.outbox| && NoRestart(steps)
    ensures var until := x.now + WaitAfter(x.outbox[i].retryCount);
      var y := Apply(x, PublishFails(stored, incrementOk));
      var z := Run(y, steps);
      && TriedOnlyFrom(y, steps, i, until)
      && (NeverFails(y, steps, i) && z.batch != [] && z.batch[0].row == i && z.unmarked.None? ==>
            (Enabled(z, Skip) <==> z.now < until) && (Enabled(z, Publish) <==> until <= z.now))
  {
    var until := x.now + WaitAfter(x.outbox[i].retryCount);
    var y := Apply(x, PublishFails(stored, incrementOk));
    FailureIsCounted(x, i, stored, incrementOk);
    HeldRowWaits(y, steps, i, until);
    if NeverFails(y, steps, i) { NoLongerThan(y, steps, i, until); }
  }

  /** ---------- A row's turn ---------- */

  /** The row is as it was but for being marked and having one failure more. */
  predicate RowAfter(before: OutboxRow, after: OutboxRow, marked: bool, failed: bool) {
    && after.event == before.event && after.published == (before.published || marked)
    && after.retryCount == before.retryCount + (if failed then 1 else 0)
  }

  predicate IsHeld(x: System, fate: Fate)
    requires x.batch != []
  {
    var i := x.batch[0].row; i in x.retryTimers && x.now + fate.elapsed < x.retryTimers[i]
  }

  /** What row `i` and everything else are after its turn. */
  ghost predicate TurnLeaves(x: System, y: System, fate: Fate, i: nat, held: bool)
    requires x.batch != []
  {
    var sent := !held && (fate.published || fate.stored);
    && i < |x.outbox| == |y.outbox|
    && y.now == x.now + fate.elapsed && y.batch == x.batch[1..] && y.unmarked.None?
    && y.stream == x.stream + (if sent then [i] else [])
    && RowAfter(x.outbox[i], y.outbox[i], !held && fate.published && fate.marked, !held && !fate.published && fate.incremented)
    && (forall k :: 0 <= k < |x.outbox| && k != i ==> y.outbox[k] == x.outbox[k])
    && (!held ==> (i in y.retryTimers <==> !fate.published))
    && (forall k :: k != i || held ==> (k in y.retryTimers <==> k in x.retryTimers))
    && (forall k :: k in x.retryTimers && (k != i || held) ==> y.retryTimers[k] == x.retryTimers[k])
    && y.messages == x.messages && y.projection == x.projection && y.consumed == x.consumed
  }

  lemma HeldTurn(x: System, fate: Fate)
    requires x.batch != [] && x.unmarked.None? && x.batch[0].row < |x.outbox| && IsHeld(x, fate)
    ensures TurnLeaves(x, Handled(x, fate), fate, x.batch[0].row, true)
  {
  }

  lemma PublishedTurn(x: System, fate: Fate)
    requires x.batch != [] && x.unmarked.None? && x.batch[0].row < |x.outbox| && !IsHeld(x, fate) && fate.published
    ensures TurnLeaves(x, Handled(x, fate), fate, x.batch[0].row, false)
  {
  }

  lemma FailedTurn(x: System, fate: Fate)
    requires x.batch != [] && x.unmarked.None? && x.batch[0].row < |x.outbox| && !IsHeld(x, fate) && !fate.published
    ensures TurnLeaves(x, Handled(x, fate), fate, x.batch[0].row, false)
  {
  }

  /** Whatever becomes of a row when its turn has come, the loop goes on with the next one. A row that is held back
      is left alone; one that is published is on the stream once more, marked if the mark goes through, and has no
      timer; one that fails is on the stream only if it was stored, and is counted if the count is written. */
  lemma TurnDecides(x: System, fate: Fate)
    requires Reachable(x) && x.batch != [] && x.unmarked.None?
    ensures TurnLeaves(x, Handled(x, fate), fate, x.batch[0].row, IsHeld(x, fate))
  {
    ReachableMatches(x);
    assert Waiting(x, x.batch[0].row, x.batch[0].retryCount);
    if IsHeld(x, fate) {
      HeldTurn(x, fate);
    } else if fate.published {
      PublishedTurn(x, fate);
    } else {
      FailedTurn(x, fate);
    }
  }

  /** ---------- Giving up ---------- */

  lemma StepNeverRevives(x: System, step: Step, i: nat)
    requires BatchMatches(x) && i < |x.outbox| && x.outbox[i].retryCount == 20
    ensures !Tries(x, step, i) && i < |Apply(x, step).outbox| && Apply(x, step).outbox[i] == x.outbox[i]
  {
    if x.batch != [] { assert Waiting(x, x.batch[0].row, x.batch[0].retryCount); }
  }

  /** At no step of the run is row `i` tried. */
  ghost predicate NeverTried(x: System, steps: seq<Step>, i: nat)
    decreases |steps|
  {
    steps == [] || (!Tries(x, steps[0], i) && NeverTried(Apply(x, steps[0]), steps[1..], i))
  }

  lemma {:induction false} NeverRevived(x: System, steps: seq<Step>, i: nat)
    requires BatchMatches(x) && i < |x.outbox| && x.outbox[i].retryCount == 20
    ensures NeverTried(x, steps, i) && i < |Run(x, steps).outbox| && Run(x, steps).outbox[i] == x.outbox[i]
    decreases |steps|
  {
    if steps != [] {
      StepNeverRevives(x, steps[0], i);
      StepKeepsBatch(x, steps[0]);
      NeverRevived(Apply(x, steps[0]), steps[1..], i);
    }
  }

  /** No row is counted more than 20 failures, and one that is counted 20 is given up: it is not published, and
      whatever happens later, restarts included, it is never tried again. */
  lemma GivesUpAfterTwenty(x: System, steps: seq<Step>, i: nat)
    requires Reachable(x) && i < |x.outbox|
    ensures x.outbox[i].retryCount <= 20
    ensures x.outbox[i].retryCount == 20 ==>
      !x.outbox[i].published && NeverTried(x, steps, i) && i < |Run(x, steps).outbox| && Run(x, steps).outbox[i] == x.outbox[i]
  {
    ReachableMatches(x);
    assert GivenUpUnpublished(x.outbox[i]);
    if x.outbox[i].retryCount == 20 { NeverRevived(x, steps, i); }
  }
}
