/**
 The chat pipeline as one state machine: committed transactions, the outbox publisher's batch loop with
 its failures and back-off, the stream, and the projection. Outbox order is commit order, and there is
 one publisher; the stream may redeliver anything it holds at any time.
 */
module Pipeline {
  import opened ChatTables
  import opened Wrappers
  import Backoff

  const BATCH_SIZE: nat := 50

  /** A row of a polled batch, with the retry count it had when polled. */
  datatype Polled = Polled(row: nat, retryCount: nat)

  /** `history[n]` is `chat_messages` as it stood after the first n commits. The stream lists outbox rows.
      `unmarked` is a row that is on the stream while its MarkPublished has not been tried yet. A publish that
      fails may still have been `stored`, its acknowledgement lost; a restart of the publisher loses its batch
      and its timers. */
  datatype System = System(
    now: int,
    messages: Table,
    outbox: seq<OutboxRow>,
    history: seq<Table>,
    batch: seq<Polled>,
    unmarked: Option<nat>,
    retryTimers: map<nat, int>,
    stream: seq<nat>,
    consumed: nat,
    projection: Table)

  datatype Step =
    | Tick(to: int)
    | Commit(event: Event)
    | CleanupBackoff
    | Poll
    | Skip
    | Publish
    | PublishFails(stored: bool, incrementOk: bool)
    | Mark(ok: bool)
    | DeliverNext(ok: bool)
    | Redeliver(k: nat, ok: bool)
    | Restart

  const INTERVAL: Backoff.int64 := 100_000_000

  function Init(start: int): System {
    System(start, map[], [], [map[]], [], None, map[], [], 0, map[])
  }

  function WithCounts(outbox: seq<OutboxRow>, rows: seq<nat>): (b: seq<Polled>)
    requires forall k :: 0 <= k < |rows| ==> rows[k] < |outbox|
    ensures |b| == |rows| && forall k :: 0 <= k < |rows| ==> b[k] == Polled(rows[k], outbox[rows[k]].retryCount)
  {
    if rows == [] then [] else [Polled(rows[0], outbox[rows[0]].retryCount)] + WithCounts(outbox, rows[1..])
  }

  function PolledBatch(outbox: seq<OutboxRow>): seq<Polled> {
    WithCounts(outbox, Pending(outbox, 0, BATCH_SIZE))
  }

  predicate Enabled(x: System, step: Step) {
    match step
    case Tick(to) => x.now <= to
    case Commit(e) => Accepts(x.messages, e)
    case CleanupBackoff => x.batch == [] && x.unmarked.None?
    case Poll => x.batch == [] && x.unmarked.None?
    case Skip => x.batch != [] && x.unmarked.None? && Backoff.InBackoff(x.retryTimers, x.batch[0].row, x.now)
    case Publish => x.batch != [] && x.unmarked.None? && !Backoff.InBackoff(x.retryTimers, x.batch[0].row, x.now)
    case PublishFails(_, _) =>
      x.batch != [] && x.unmarked.None? && !Backoff.InBackoff(x.retryTimers, x.batch[0].row, x.now)
      && x.batch[0].row < |x.outbox|
    case Mark(_) => x.unmarked.Some? && x.unmarked.value < |x.outbox|
    case DeliverNext(_) => x.consumed < |x.stream| && x.stream[x.consumed] < |x.outbox|
    case Redeliver(k, _) => k < |x.stream| && x.stream[k] < |x.outbox|
    case Restart => true
  }

  /** A step that is not enabled changes nothing, so every sequence of steps is a run. */
  function Apply(x: System, step: Step): System {
    if !Enabled(x, step) then x else
    match step
    case Tick(to) => x.(now := to)
    case Commit(e) =>
      x.(messages := Write(x.messages, e),
         outbox := x.outbox + [OutboxRow(e, false, 0)],
         history := x.history + [Write(x.messages, e)])
    case CleanupBackoff => x.(retryTimers := Backoff.Apply(x.retryTimers, Backoff.Cleanup(x.now)))
    case Poll => x.(batch := PolledBatch(x.outbox))
    case Skip => x.(batch := x.batch[1..])
    case Publish =>
      x.(stream := x.stream + [x.batch[0].row],
         retryTimers := Backoff.Apply(x.retryTimers, Backoff.Clear(x.now, x.batch[0].row)),
         unmarked := Some(x.batch[0].row),
         batch := x.batch[1..])
    case PublishFails(stored, incrementOk) =>
      var i := x.batch[0].row;
      var wait := Backoff.Backoff(INTERVAL as int, x.batch[0].retryCount + 1);
      x.(outbox := if incrementOk then x.outbox[i := x.outbox[i].(retryCount := x.outbox[i].retryCount + 1)]
                   else x.outbox,
         stream := if stored then x.stream + [i] else x.stream,
         retryTimers := Backoff.Apply(x.retryTimers, Backoff.Set(x.now, i, wait)),
         batch := x.batch[1..])
    case Mark(ok) =>
      var i := x.unmarked.value;
      x.(outbox := if ok then x.outbox[i := x.outbox[i].(published := true)] else x.outbox, unmarked := None)
    case DeliverNext(ok) =>
      var after := if ok then Project(x.projection, x.outbox[x.stream[x.consumed]].event) else x.projection;
      x.(projection := after, consumed := x.consumed + 1)
    case Redeliver(k, ok) =>
      x.(projection := if ok then Project(x.projection, x.outbox[x.stream[k]].event) else x.projection)
    case Restart => x.(batch := [], unmarked := None, retryTimers := map[])
  }

  function Run(x: System, steps: seq<Step>): System
    decreases |steps|
  {
    if steps == [] then x else Run(Apply(x, steps[0]), steps[1..])
  }

  /** Which kinds of failure a run may have: of a publish (and of the retry count written after it), of a
      mark, of a projection write, the delivery of an event again, and restarts of the publisher. */
  datatype Faults = Faults(publish: bool, mark: bool, write: bool, redeliver: bool, restart: bool)

  const NONE := Faults(false, false, false, false, false)

  predicate Within(f: Faults, step: Step) {
    && (step.PublishFails? ==> f.publish)
    && (step.Mark? && !step.ok ==> f.mark)
    && (step.DeliverNext? && !step.ok ==> f.write)
    && (step.Redeliver? ==> f.redeliver)
    && (step.Restart? ==> f.restart)
  }

  predicate AllWithin(f: Faults, steps: seq<Step>) {
    forall k :: 0 <= k < |steps| ==> Within(f, steps[k])
  }

  /** ---------- What every run keeps ---------- */

  /** The history replays the committed events one by one. */
  ghost predicate HistoryMatches(x: System) {
    && |x.history| == |x.outbox| + 1 && x.history[0] == map[] && x.history[|x.outbox|] == x.messages
    && forall i :: 0 <= i < |x.outbox| ==> Committed(x.history[i], x.outbox[i].event, x.history[i + 1])
  }

  ghost predicate Committed(before: Table, e: Event, after: Table) {
    Accepts(before, e) && after == Write(before, e)
  }

  lemma {:induction false} StepKeepsHistory(x: System, step: Step)
    requires HistoryMatches(x)
    ensures HistoryMatches(Apply(x, step))
  {
  }

  /** Fields other than the content never change once written, and a deletion is never undone. */
  lemma {:induction false} HistoryGrows(x: System, i: nat, j: nat, id: MsgId)
    requires HistoryMatches(x) && i <= j <= |x.outbox| && id in x.history[i]
    ensures id in x.history[j] && SameMessage(x.history[i][id], x.history[j][id])
    ensures x.history[i][id].deleted ==> x.history[j][id].deleted
    decreases j - i
  {
    if i < j {
      HistoryGrows(x, i, j - 1, id);
      assert Committed(x.history[j - 1], x.outbox[j - 1].event, x.history[j]);
    }
  }

  ghost predicate SameMessage(r: Row, s: Row) { r.room == s.room && r.author == s.author && r.kind == s.kind }

  ghost predicate PublisherMatches(x: System) {
    && (forall k :: 0 <= k < |x.stream| ==> x.stream[k] < |x.outbox|)
    && (forall k :: 0 <= k < |x.batch| ==> x.batch[k].row < |x.outbox|)
    && (x.unmarked.Some? ==> x.unmarked.value in x.stream)
    && (forall i :: 0 <= i < |x.outbox| && x.outbox[i].published ==> i in x.stream)
  }

  lemma StepKeepsPublisher(x: System, step: Step)
    requires PublisherMatches(x)
    ensures PublisherMatches(Apply(x, step))
  {
    var y := Apply(x, step);
    assert forall i :: i in x.stream ==> i in y.stream by {
      assert (step.Publish? || step.PublishFails?) && Enabled(x, step) && y.stream != x.stream ==>
        y.stream == x.stream + [x.batch[0].row];
    }
    if step.Publish? && Enabled(x, step) {
      assert y.stream[|x.stream|] == x.batch[0].row;
    }
  }

  /** A projected row is a committed message with some content it once had; a tombstone is a committed deletion. */
  ghost predicate RowFromCommit(x: System, id: MsgId)
    requires id in x.projection
  {
    && (exists n :: 0 <= n < |x.history| && id in x.history[n]
          && SameMessage(x.history[n][id], x.projection[id])
          && x.history[n][id].content == x.projection[id].content)
    && (x.projection[id].deleted ==> id in x.messages && x.messages[id].deleted)
  }

  ghost predicate ProjectionFromCommits(x: System) {
    forall id :: id in x.projection ==> RowFromCommit(x, id)
  }

  /** The event of a committed row meets a table that already has its message, with its content. */
  lemma EventMeetsHistory(x: System, i: nat)
    requires HistoryMatches(x) && i < |x.outbox|
    ensures x.outbox[i].event.id in x.history[i + 1] && x.outbox[i].event.id in x.messages
    ensures x.outbox[i].event.Deleted? ==> x.messages[x.outbox[i].event.id].deleted
    ensures !x.outbox[i].event.Deleted? ==> x.history[i + 1][x.outbox[i].event.id].content == x.outbox[i].event.content
    ensures x.outbox[i].event.Created? ==>
              var e := x.outbox[i].event;
              x.history[i + 1][e.id] == Row(e.room, e.author, e.kind, e.content, false)
  {
    assert Committed(x.history[i], x.outbox[i].event, x.history[i + 1]);
    HistoryGrows(x, i + 1, |x.outbox|, x.outbox[i].event.id);
  }

  lemma AllVersionsSameMessage(x: System, n: nat, m: nat, id: MsgId)
    requires HistoryMatches(x) && n < |x.history| && m < |x.history|
    requires id in x.history[n] && id in x.history[m]
    ensures SameMessage(x.history[n][id], x.history[m][id])
  {
    HistoryGrows(x, n, |x.outbox|, id);
    HistoryGrows(x, m, |x.outbox|, id);
  }

  lemma OtherRowsKept(x: System, y: System, e: Event, id: MsgId)
    requires id in x.projection && RowFromCommit(x, id) && e.id != id
    requires y.messages == x.messages && y.history == x.history && y.projection == Project(x.projection, e)
    ensures RowFromCommit(y, id)
  {
  }

  /** The event's own row takes its content from the event, or keeps the one it had. */
  lemma OwnRowKept(x: System, y: System, i: nat)
    requires HistoryMatches(x) && i < |x.outbox|
    requires var e := x.outbox[i].event;
             && (e.id in x.projection ==> RowFromCommit(x, e.id))
             && y.messages == x.messages && y.history == x.history && y.projection == Project(x.projection, e)
             && e.id in y.projection
    ensures RowFromCommit(y, x.outbox[i].event.id)
  {
    var e := x.outbox[i].event;
    EventMeetsHistory(x, i);
    if e.id in x.projection {
      var n :| 0 <= n < |x.history| && e.id in x.history[n]
        && SameMessage(x.history[n][e.id], x.projection[e.id])
        && x.history[n][e.id].content == x.projection[e.id].content;
      AllVersionsSameMessage(x, n, i + 1, e.id);
      assert SameMessage(y.history[i + 1][e.id], y.projection[e.id]);
      assert SameMessage(y.history[n][e.id], y.projection[e.id]);
    } else {
      assert SameMessage(y.history[i + 1][e.id], y.projection[e.id]);
    }
  }

  lemma DeliveryKeepsProjection(x: System, y: System, i: nat)
    requires HistoryMatches(x) && ProjectionFromCommits(x) && i < |x.outbox|
    requires y.messages == x.messages && y.history == x.history
    requires y.projection == Project(x.projection, x.outbox[i].event)
    ensures ProjectionFromCommits(y)
  {
    var e := x.outbox[i].event;
    forall id | id in y.projection ensures RowFromCommit(y, id) {
      if id == e.id {
        OwnRowKept(x, y, i);
      } else {
        OtherRowsKept(x, y, e, id);
      }
    }
  }

  lemma CommitKeepsProjection(x: System, e: Event)
    requires HistoryMatches(x) && ProjectionFromCommits(x) && Accepts(x.messages, e)
    ensures ProjectionFromCommits(Apply(x, Commit(e)))
  {
    var y := Apply(x, Commit(e));
    forall id | id in y.projection ensures RowFromCommit(y, id) {
      assert RowFromCommit(x, id);
      var n :| 0 <= n < |x.history| && id in x.history[n]
        && SameMessage(x.history[n][id], x.projection[id])
        && x.history[n][id].content == x.projection[id].content;
      assert y.history[n] == x.history[n];
    }
  }

  ghost predicate Inv(x: System) {
    HistoryMatches(x) && PublisherMatches(x) && ProjectionFromCommits(x)
  }

  lemma StepKeepsInv(x: System, step: Step)
    requires Inv(x)
    ensures Inv(Apply(x, step))
  {
    StepKeepsHistory(x, step);
    StepKeepsPublisher(x, step);
    var y := Apply(x, step);
    if Enabled(x, step) {
      match step {
        case Commit(e) => CommitKeepsProjection(x, e);
        case DeliverNext(true) => DeliveryKeepsProjection(x, y, x.stream[x.consumed]);
        case Redeliver(k, true) => DeliveryKeepsProjection(x, y, x.stream[k]);
        case _ => QuietStepKeepsProjection(x, y);
      }
    }
  }

  lemma QuietStepKeepsProjection(x: System, y: System)
    requires ProjectionFromCommits(x)
    requires y.messages == x.messages && y.history == x.history && y.projection == x.projection
    ensures ProjectionFromCommits(y)
  {
    forall id | id in y.projection ensures RowFromCommit(y, id) {
      assert RowFromCommit(x, id);
    }
  }

  lemma {:induction false} RunKeepsInv(x: System, steps: seq<Step>)
    requires Inv(x)
    ensures Inv(Run(x, steps))
    decreases |steps|
  {
    if steps != [] {
      StepKeepsInv(x, steps[0]);
      RunKeepsInv(Apply(x, steps[0]), steps[1..]);
    }
  }

  /** With any publish, mark, increment and projection failures, restarts, duplicates and reordering: a row marked published is on
      the stream, and every projected row is a committed message with a content it once had. */
  lemma FailuresNeverInvent(start: int, steps: seq<Step>)
    ensures var x := Run(Init(start), steps);
            && (forall i :: 0 <= i < |x.outbox| && x.outbox[i].published ==> i in x.stream)
            && (forall k :: 0 <= k < |x.stream| ==> x.stream[k] < |x.outbox|)
            && forall id :: id in x.projection ==> RowFromCommit(x, id)
  {
    RunKeepsInv(Init(start), steps);
  }

  /** A tombstoned projection row never becomes visible again, whatever is delivered later. */
  lemma {:induction false} TombstonesStay(x: System, steps: seq<Step>, id: MsgId)
    requires id in x.projection && x.projection[id].deleted
    ensures id in Run(x, steps).projection && Run(x, steps).projection[id].deleted
    decreases |steps|
  {
    if steps != [] {
      TombstonesStay(Apply(x, steps[0]), steps[1..], id);
    }
  }

  /** ---------- Which changes commit ---------- */

  /** One of the committed events creates (deletes) the message. */
  predicate HasCreated(outbox: seq<OutboxRow>, id: MsgId) {
    exists i :: 0 <= i < |outbox| && outbox[i].event.Created? && outbox[i].event.id == id
  }

  predicate HasDeleted(outbox: seq<OutboxRow>, id: MsgId) {
    exists i :: 0 <= i < |outbox| && outbox[i].event.Deleted? && outbox[i].event.id == id
  }

  lemma {:induction false} MessagesAre(x: System, n: nat, id: MsgId)
    requires HistoryMatches(x) && n <= |x.outbox|
    ensures id in x.history[n] <==> HasCreated(x.outbox[..n], id)
    ensures id in x.history[n] ==> (x.history[n][id].deleted <==> HasDeleted(x.outbox[..n], id))
    ensures HasDeleted(x.outbox[..n], id) ==> id in x.history[n]
  {
    if n > 0 {
      var before, after, e := x.outbox[..n - 1], x.outbox[..n], x.outbox[n - 1].event;
      MessagesAre(x, n - 1, id);
      assert Committed(x.history[n - 1], e, x.history[n]);
      assert after == before + [x.outbox[n - 1]];
      EventsOneMore(before, x.outbox[n - 1], id);
    }
  }

  lemma EventsOneMore(outbox: seq<OutboxRow>, row: OutboxRow, id: MsgId)
    ensures HasCreated(outbox + [row], id) <==> HasCreated(outbox, id) || (row.event.Created? && row.event.id == id)
    ensures HasDeleted(outbox + [row], id) <==> HasDeleted(outbox, id) || (row.event.Deleted? && row.event.id == id)
  {
    var more := outbox + [row];
    assert forall i :: 0 <= i < |outbox| ==> more[i] == outbox[i];
    assert more[|outbox|] == row;
    if i :| 0 <= i < |outbox| && outbox[i].event.Created? && outbox[i].event.id == id { assert more[i].event.Created?; }
    if i :| 0 <= i < |outbox| && outbox[i].event.Deleted? && outbox[i].event.id == id { assert more[i].event.Deleted?; }
  }

  /** After any run, a create commits exactly if its id was never created before, and an update or a deletion
      exactly if its message was created before and never deleted. */
  lemma CommitsExactly(start: int, steps: seq<Step>, e: Event)
    ensures var x := Run(Init(start), steps);
      Enabled(x, Commit(e)) <==>
        if e.Created? then !HasCreated(x.outbox, e.id) else HasCreated(x.outbox, e.id) && !HasDeleted(x.outbox, e.id)
  {
    var x := Run(Init(start), steps);
    RunKeepsInv(Init(start), steps);
    MessagesAre(x, |x.outbox|, e.id);
    assert x.outbox[..|x.outbox|] == x.outbox;
  }

  /** ---------- What healthy runs keep ---------- */

  /** The stream is rows 0, 1, 2, ... of the outbox, the batch goes on where it stops, and what is marked
      published is what is on the stream, but for a row whose mark is still to come. */
  ghost predicate InStep(x: System) {
    && |x.stream| <= |x.outbox| && (forall k :: 0 <= k < |x.stream| ==> x.stream[k] == k)
    && |x.stream| + |x.batch| <= |x.outbox|
    && (forall k :: 0 <= k < |x.batch| ==> x.batch[k].row == |x.stream| + k)
    && (x.unmarked.Some? ==> |x.stream| > 0 && x.unmarked.value == |x.stream| - 1)
    && (forall i :: 0 <= i < |x.outbox| ==> (x.outbox[i].published <==> i < |x.stream| && x.unmarked != Some(i)))
    && (forall i :: 0 <= i < |x.outbox| ==> x.outbox[i].retryCount == 0)
    && x.retryTimers == map[]
  }

  ghost predicate ReadsPastState(x: System) {
    x.consumed <= |x.stream| && x.consumed < |x.history| && x.projection == x.history[x.consumed]
  }

  /** Polling when rows 0 to m are published finds the rows from m on. */
  lemma {:induction false} PendingFrom(outbox: seq<OutboxRow>, i: nat, m: nat, n: nat)
    requires i <= |outbox| && m <= |outbox|
    requires forall k :: 0 <= k < |outbox| ==> (outbox[k].published <==> k < m) && outbox[k].retryCount == 0
    ensures var p := Pending(outbox, i, n);
            var from := if i < m then m else i;
            && from + |p| <= |outbox| && forall k :: 0 <= k < |p| ==> p[k] == from + k
    decreases |outbox| - i
  {
    if n > 0 && i < |outbox| {
      PendingFrom(outbox, i + 1, m, if outbox[i].published then n else n - 1);
    }
  }

  lemma StepKeepsInStep(x: System, step: Step)
    requires InStep(x) && Within(NONE, step)
    ensures InStep(Apply(x, step))
  {
    if step.Poll? && Enabled(x, step) {
      PendingFrom(x.outbox, 0, |x.stream|, BATCH_SIZE);
    }
  }

  lemma StepKeepsPastState(x: System, step: Step)
    requires HistoryMatches(x) && InStep(x) && ReadsPastState(x) && Within(NONE, step)
    ensures ReadsPastState(Apply(x, step))
  {
    if step.DeliverNext? && Enabled(x, step) {
      assert Committed(x.history[x.consumed], x.outbox[x.consumed].event, x.history[x.consumed + 1]);
      HandlerMirrorsWrite(x.history[x.consumed], x.outbox[x.consumed].event);
    }
  }

  lemma {:induction false} RunKeepsInStep(x: System, steps: seq<Step>)
    requires Inv(x) && InStep(x) && ReadsPastState(x) && AllWithin(NONE, steps)
    ensures Inv(Run(x, steps)) && InStep(Run(x, steps)) && ReadsPastState(Run(x, steps))
    decreases |steps|
  {
    if steps != [] {
      StepKeepsInv(x, steps[0]);
      StepKeepsInStep(x, steps[0]);
      StepKeepsPastState(x, steps[0]);
      RunKeepsInStep(Apply(x, steps[0]), steps[1..]);
    }
  }

  /** In a healthy run the stream is a duplicate-free prefix of the outbox, and after n events the projection
      is `chat_messages` exactly as it stood after the first n commits; drained, the two tables are equal. */
  lemma ProjectionIsPastState(start: int, steps: seq<Step>)
    requires AllWithin(NONE, steps)
    ensures var x := Run(Init(start), steps);
            && |x.stream| <= |x.outbox| && (forall k :: 0 <= k < |x.stream| ==> x.stream[k] == k)
            && x.consumed <= |x.stream| && |x.history| == |x.outbox| + 1
            && x.projection == x.history[x.consumed]
            && (x.consumed == |x.outbox| ==> x.projection == x.messages)
  {
    RunKeepsInStep(Init(start), steps);
  }

  /** ---------- What runs with restarts keep ---------- */

  const RESTARTS := NONE.(restart := true)

  function Top(x: System): nat { if x.stream == [] then 0 else x.stream[|x.stream| - 1] + 1 }

  /** The stream goes through the outbox row by row, and repeats at most the row it is at. */
  ghost predicate GoesRowByRow(stream: seq<nat>) {
    (stream != [] ==> stream[0] == 0) &&
    forall k :: 0 < k < |stream| ==> stream[k - 1] <= stream[k] <= stream[k - 1] + 1
  }

  /** Rows below `p` are marked, and at most one more is on the stream; the batch goes on from there. */
  ghost predicate InOrder(x: System, p: nat) {
    && GoesRowByRow(x.stream) && Top(x) <= |x.outbox| && (p == Top(x) || p + 1 == Top(x))
    && (forall i :: 0 <= i < |x.outbox| ==> (x.outbox[i].published <==> i < p) && x.outbox[i].retryCount == 0)
    && (x.unmarked.Some? ==> x.unmarked.value == p && p + 1 == Top(x))
    && (forall k :: 0 <= k < |x.batch| ==>
          x.batch[k].row == p + (if x.unmarked.Some? then 1 else 0) + k && x.batch[k].row < |x.outbox|)
    && x.retryTimers == map[]
  }

  ghost predicate ReadsInOrder(x: System) {
    && x.consumed <= |x.stream| && |x.history| == |x.outbox| + 1
    && (forall k :: 0 <= k < |x.stream| ==> x.stream[k] < |x.outbox|)
    && x.projection == x.history[if x.consumed == 0 then 0 else x.stream[x.consumed - 1] + 1]
  }

  function MarkedAfter(x: System, p: nat, step: Step): nat { if step.Mark? && Enabled(x, step) then p + 1 else p }

  lemma PublishKeepsOrder(x: System, p: nat)
    requires InOrder(x, p) && Enabled(x, Publish)
    ensures InOrder(Apply(x, Publish), p)
  {
    assert Backoff.Apply(map[], Backoff.Clear(x.now, p)) == map[];
  }

  lemma PollKeepsOrder(x: System, p: nat)
    requires InOrder(x, p) && Enabled(x, Poll)
    ensures InOrder(Apply(x, Poll), p)
  {
    PendingFrom(x.outbox, 0, p, BATCH_SIZE);
  }

  lemma StepKeepsOrder(x: System, p: nat, step: Step)
    requires InOrder(x, p) && Within(RESTARTS, step)
    ensures InOrder(Apply(x, step), MarkedAfter(x, p, step))
  {
    if Enabled(x, step) {
      match step
      case Publish => PublishKeepsOrder(x, p);
      case Poll => PollKeepsOrder(x, p);
      case _ =>
    }
  }

  /** The next event is new, or repeats the last one, which changes nothing. */
  lemma DeliverKeepsReading(x: System)
    requires HistoryMatches(x) && GoesRowByRow(x.stream) && ReadsInOrder(x) && x.consumed < |x.stream|
    ensures var n := x.stream[x.consumed];
      Project(x.projection, x.outbox[n].event) == x.history[n + 1]
  {
    var n := x.stream[x.consumed];
    assert Committed(x.history[n], x.outbox[n].event, x.history[n + 1]);
    HandlerMirrorsWrite(x.history[n], x.outbox[n].event);
    HandlingTwiceIsOnce(x.history[n], x.outbox[n].event);
  }

  lemma StepKeepsReading(x: System, p: nat, step: Step)
    requires HistoryMatches(x) && PublisherMatches(x) && InOrder(x, p) && ReadsInOrder(x) && Within(RESTARTS, step)
    ensures ReadsInOrder(Apply(x, step))
  {
    StepKeepsPublisher(x, step);
    StepKeepsHistory(x, step);
    if step.DeliverNext? && Enabled(x, step) {
      DeliverKeepsReading(x);
    }
  }

  lemma {:induction false} RunKeepsOrder(x: System, p: nat, steps: seq<Step>) returns (q: nat)
    requires Inv(x) && InOrder(x, p) && ReadsInOrder(x) && AllWithin(RESTARTS, steps)
    ensures Inv(Run(x, steps)) && InOrder(Run(x, steps), q) && ReadsInOrder(Run(x, steps))
    decreases |steps|
  {
    q := p;
    if steps != [] {
      StepKeepsInv(x, steps[0]);
      StepKeepsOrder(x, p, steps[0]);
      StepKeepsReading(x, p, steps[0]);
      assert forall k :: 0 <= k < |steps[1..]| ==> steps[1..][k] == steps[k + 1];
      q := RunKeepsOrder(Apply(x, steps[0]), MarkedAfter(x, p, steps[0]), steps[1..]);
    }
  }

  /** Restarts alone, at any point, only repeat the row the stream is at: the projection is a past state of
      the command table all the same. */
  lemma PastStateDespiteRestarts(start: int, steps: seq<Step>)
    requires AllWithin(RESTARTS, steps)
    ensures var x := Run(Init(start), steps);
            && GoesRowByRow(x.stream) && x.consumed <= |x.stream| && |x.history| == |x.outbox| + 1
            && (forall k :: 0 <= k < |x.stream| ==> x.stream[k] < |x.outbox|)
            && x.projection == x.history[if x.consumed == 0 then 0 else x.stream[x.consumed - 1] + 1]
  {
    var q := RunKeepsOrder(Init(start), 0, steps);
  }

  /** ---------- Convergence, and how it is lost ---------- */

  function CommittedEvents(outbox: seq<OutboxRow>): seq<Event> {
    if outbox == [] then [] else [outbox[0].event] + CommittedEvents(outbox[1..])
  }

  lemma {:induction false} ReplayFrom(x: System, i: nat)
    requires HistoryMatches(x) && i <= |x.outbox|
    ensures ProjectAll(x.history[i], CommittedEvents(x.outbox[i..])) == x.messages
    decreases |x.outbox| - i
  {
    if i < |x.outbox| {
      assert Committed(x.history[i], x.outbox[i].event, x.history[i + 1]);
      HandlerMirrorsWrite(x.history[i], x.outbox[i].event);
      assert x.outbox[i..][1..] == x.outbox[i + 1..];
      assert CommittedEvents(x.outbox[i..])[1..] == CommittedEvents(x.outbox[i + 1..]);
      ReplayFrom(x, i + 1);
    }
  }

  /** Any delivery that gives each message its own committed events in order, repeats of the last one
      allowed and messages interleaved at will, ends in the command side's table. */
  lemma PerMessageOrderConverges(x: System, delivered: seq<Event>)
    requires Inv(x)
    requires forall id :: WithoutRepeats(EventsOf(delivered, id)) ==
                          WithoutRepeats(EventsOf(CommittedEvents(x.outbox), id))
    ensures ProjectAll(map[], delivered) == x.messages
  {
    ReplayFrom(x, 0);
    assert x.outbox[0..] == x.outbox;
    DeliveriesConfluent(map[], delivered, CommittedEvents(x.outbox));
  }

  /** Exactly the deliveries that end in the command side's table: those that, of each message, keep what its
      committed events leave. */
  lemma ConvergesExactly(x: System, delivered: seq<Event>)
    requires Inv(x)
    ensures ProjectAll(map[], delivered) == x.messages <==>
            forall id :: AgreeOn(delivered, CommittedEvents(x.outbox), id)
  {
    ReplayFrom(x, 0);
    assert x.outbox[0..] == x.outbox;
    DeliveriesAgreeExactly(delivered, CommittedEvents(x.outbox));
  }

  /** Everything committed is published and everything published was delivered. */
  predicate Drained(x: System) {
    (forall i :: 0 <= i < |x.outbox| ==> x.outbox[i].published) && x.consumed == |x.stream|
  }

  /** Every run with no other faults than `f`, once drained, has the two tables agree. */
  ghost predicate DrainedAgrees(f: Faults) {
    forall start, steps ::
      AllWithin(f, steps) && Drained(Run(Init(start), steps)) ==>
        Run(Init(start), steps).projection == Run(Init(start), steps).messages
  }

  lemma RestartsAgree()
    ensures DrainedAgrees(RESTARTS)
  {
    forall start, steps | AllWithin(RESTARTS, steps) && Drained(Run(Init(start), steps))
      ensures Run(Init(start), steps).projection == Run(Init(start), steps).messages
    {
      var q := RunKeepsOrder(Init(start), 0, steps);
      var x := Run(Init(start), steps);
      assert |x.outbox| > 0 ==> x.outbox[|x.outbox| - 1].published;
      assert q == Top(x) == |x.outbox|;
    }
  }

  const CREATE := Created(0, 0, 0, 0, "a")
  const UPDATE := Updated(0, "b")
  const OLD_ROW := Row(0, 0, 0, "a", false)
  const NEW_ROW := Row(0, 0, 0, "b", false)

  /** Both events committed; the two rows' `published` flags, the stream and the projection are as given. */
  function Stage(first: bool, second: bool, stream: seq<nat>, consumed: nat, projection: Table): System {
    System(0, map[0 := NEW_ROW], [OutboxRow(CREATE, first, 0), OutboxRow(UPDATE, second, 0)],
           [map[], map[0 := OLD_ROW], map[0 := NEW_ROW]], [], None, map[], stream, consumed, projection)
  }

  /** Some run with no other faults than `f` goes from `x` to `y`. */
  ghost predicate Leads(f: Faults, x: System, y: System) {
    exists steps :: AllWithin(f, steps) && Run(x, steps) == y
  }

  lemma LeadsByStep(f: Faults, x: System, step: Step, y: System)
    requires y == Apply(x, step) && Within(f, step)
    ensures Leads(f, x, y)
  {
    assert Run(y, []) == y;
    assert Run(x, [step]) == y && AllWithin(f, [step]);
  }

  lemma LeadsOn(f: Faults, x: System, y: System, z: System)
    requires Leads(f, x, y) && Leads(f, y, z)
    ensures Leads(f, x, z)
  {
    var first :| AllWithin(f, first) && Run(x, first) == y;
    var rest :| AllWithin(f, rest) && Run(y, rest) == z;
    RunParts(x, first, rest);
    assert AllWithin(f, first + rest);
  }

  lemma LeadsThenStep(f: Faults, x: System, y: System, step: Step, z: System)
    requires Leads(f, x, y) && z == Apply(y, step) && Within(f, step)
    ensures Leads(f, x, z)
  {
    LeadsByStep(f, y, step, z);
    LeadsOn(f, x, y, z);
  }

  lemma {:induction false} RunParts(x: System, first: seq<Step>, rest: seq<Step>)
    ensures Run(x, first + rest) == Run(Run(x, first), rest)
    decreases |first|
  {
    if first == [] {
      assert first + rest == rest;
    } else {
      assert (first + rest)[1..] == first[1..] + rest;
      RunParts(Apply(x, first[0]), first[1..], rest);
    }
  }

  /** A drained run of the kind `f` with different tables refutes agreement for every kind that allows it. */
  lemma DisagreementIn(f: Faults, g: Faults, x: System)
    requires Leads(f, Init(0), x) && Drained(x)
    requires 0 in x.messages && (0 in x.projection ==> x.projection[0] != x.messages[0])
    requires (f.publish ==> g.publish) && (f.mark ==> g.mark) && (f.write ==> g.write) && (f.redeliver ==> g.redeliver)
    requires f.restart ==> g.restart
    ensures !DrainedAgrees(g)
  {
    var steps :| AllWithin(f, steps) && Run(Init(0), steps) == x;
    assert AllWithin(g, steps);
  }

  lemma BothCommitted(f: Faults)
    ensures Leads(f, Init(0), Stage(false, false, [], 0, map[]))
  {
    assert Write(map[], CREATE) == map[0 := OLD_ROW] && Write(map[0 := OLD_ROW], UPDATE) == map[0 := NEW_ROW];
    var x := Apply(Init(0), Commit(CREATE));
    assert x.history == [map[], map[0 := OLD_ROW]] && x.outbox == [OutboxRow(CREATE, false, 0)];
    var y := Apply(x, Commit(UPDATE));
    assert y.history == x.history + [map[0 := NEW_ROW]];
    assert y == Stage(false, false, [], 0, map[]);
    LeadsByStep(f, Init(0), Commit(CREATE), x);
    LeadsThenStep(f, Init(0), x, Commit(UPDATE), y);
  }

  function FirstBatch(): System { Stage(false, false, [], 0, map[]).(batch := [Polled(0, 0), Polled(1, 0)]) }

  lemma FirstBatchPolled(f: Faults)
    ensures Leads(f, Init(0), FirstBatch())
  {
    var x := Stage(false, false, [], 0, map[]);
    BothCommitted(f);
    assert Pending(x.outbox, 2, 48) == [] && Pending(x.outbox, 1, 49) == [1] && Pending(x.outbox, 0, 50) == [0, 1];
    LeadsThenStep(f, Init(0), x, Poll, FirstBatch());
  }

  /** The first batch with every publish going through, and the mark of the create failing or not. */
  lemma FirstBatchPublished(f: Faults, marked: bool)
    requires f.mark || marked
    ensures Leads(f, Init(0), Stage(marked, true, [0, 1], 0, map[]))
  {
    FirstBatchPolled(f);
    var x1 := FirstBatch();
    var x2 := Stage(false, false, [0], 0, map[]).(unmarked := Some(0), batch := [Polled(1, 0)]);
    var x3 := Stage(marked, false, [0], 0, map[]).(batch := [Polled(1, 0)]);
    var x4 := Stage(marked, false, [0, 1], 0, map[]).(unmarked := Some(1));
    LeadsThenStep(f, Init(0), x1, Publish, x2);
    LeadsThenStep(f, Init(0), x2, Mark(marked), x3);
    LeadsThenStep(f, Init(0), x3, Publish, x4);
    LeadsThenStep(f, Init(0), x4, Mark(true), Stage(marked, true, [0, 1], 0, map[]));
  }

  const LOST_MARK := NONE.(mark := true)
  const LOST_PUBLISH := NONE.(publish := true)
  const LOST_WRITE := NONE.(write := true)
  const REDELIVERED := NONE.(redeliver := true)

  lemma SecondBatchRepublishes()
    ensures Leads(LOST_MARK, Init(0), Stage(true, true, [0, 1, 0], 0, map[]))
  {
    FirstBatchPublished(LOST_MARK, false);
    var x := Stage(false, true, [0, 1], 0, map[]);
    assert Pending(x.outbox, 2, 49) == [] && Pending(x.outbox, 1, 49) == [] && Pending(x.outbox, 0, 50) == [0];
    var x1 := x.(batch := [Polled(0, 0)]);
    var x2 := x.(stream := [0, 1, 0], unmarked := Some(0));
    LeadsThenStep(LOST_MARK, Init(0), x, Poll, x1);
    LeadsThenStep(LOST_MARK, Init(0), x1, Publish, x2);
    LeadsThenStep(LOST_MARK, Init(0), x2, Mark(true), Stage(true, true, [0, 1, 0], 0, map[]));
  }

  /** Create and update delivered, in this order. */
  lemma BothDelivered(f: Faults, stream: seq<nat>)
    requires 2 <= |stream| && stream[0] == 0 && stream[1] == 1
    requires Leads(f, Init(0), Stage(true, true, stream, 0, map[]))
    ensures Leads(f, Init(0), Stage(true, true, stream, 2, map[0 := NEW_ROW]))
  {
    var x := Stage(true, true, stream, 0, map[]);
    var x1 := Stage(true, true, stream, 1, map[0 := OLD_ROW]);
    LeadsThenStep(f, Init(0), x, DeliverNext(true), x1);
    LeadsThenStep(f, Init(0), x1, DeliverNext(true), Stage(true, true, stream, 2, map[0 := NEW_ROW]));
  }

  /** One failed mark is enough: the create is published again after the update, and the projection goes
      back to the old content. */
  lemma LostMarkReverts()
    ensures Leads(LOST_MARK, Init(0), Stage(true, true, [0, 1, 0], 3, map[0 := OLD_ROW]))
  {
    SecondBatchRepublishes();
    BothDelivered(LOST_MARK, [0, 1, 0]);
    var x := Stage(true, true, [0, 1, 0], 2, map[0 := NEW_ROW]);
    LeadsThenStep(LOST_MARK, Init(0), x, DeliverNext(true), Stage(true, true, [0, 1, 0], 3, map[0 := OLD_ROW]));
  }

  /** So is the create being delivered once more. */
  lemma RedeliveryReverts()
    ensures Leads(REDELIVERED, Init(0), Stage(true, true, [0, 1], 2, map[0 := OLD_ROW]))
  {
    FirstBatchPublished(REDELIVERED, true);
    BothDelivered(REDELIVERED, [0, 1]);
    var x := Stage(true, true, [0, 1], 2, map[0 := NEW_ROW]);
    LeadsThenStep(REDELIVERED, Init(0), x, Redeliver(0, true), Stage(true, true, [0, 1], 2, map[0 := OLD_ROW]));
  }

  /** And one projection write failing: the event is acknowledged and lost. */
  lemma LostWriteStaysLost()
    ensures Leads(LOST_WRITE, Init(0), Stage(true, true, [0, 1], 2, map[]))
  {
    FirstBatchPublished(LOST_WRITE, true);
    var x := Stage(true, true, [0, 1], 0, map[]);
    var x1 := Stage(true, true, [0, 1], 1, map[]);
    LeadsThenStep(LOST_WRITE, Init(0), x, DeliverNext(false), x1);
    LeadsThenStep(LOST_WRITE, Init(0), x1, DeliverNext(true), Stage(true, true, [0, 1], 2, map[]));
  }

  function AfterRetry(first: bool, stream: seq<nat>, consumed: nat, projection: Table): System {
    var wait := Backoff.Backoff(INTERVAL as int, 1);
    Stage(first, true, stream, consumed, projection).(
      now := wait, outbox := [OutboxRow(CREATE, first, 1), OutboxRow(UPDATE, true, 0)])
  }

  /** The failed create's timer has run out. */
  function WaitedOut(): System {
    AfterRetry(false, [1], 0, map[]).(retryTimers := map[0 := Backoff.Backoff(INTERVAL as int, 1)])
  }

  lemma CreateSkipped()
    ensures Leads(LOST_PUBLISH, Init(0), WaitedOut())
  {
    var f, wait := LOST_PUBLISH, Backoff.Backoff(INTERVAL as int, 1);
    FirstBatchPolled(f);
    var x1 := FirstBatch();
    var failed := [OutboxRow(CREATE, false, 1), OutboxRow(UPDATE, false, 0)];
    var x2 := x1.(outbox := failed, retryTimers := map[0 := wait], batch := [Polled(1, 0)]);
    var x3 := x2.(stream := [1], unmarked := Some(1), batch := []);
    var x4 := AfterRetry(false, [1], 0, map[]).(now := 0, retryTimers := map[0 := wait]);
    assert x1.batch[1..] == [Polled(1, 0)];
    LeadsThenStep(f, Init(0), x1, PublishFails(false, true), x2);
    assert Backoff.Apply(map[0 := wait], Backoff.Clear(0, 1)) == map[0 := wait];
    LeadsThenStep(f, Init(0), x2, Publish, x3);
    LeadsThenStep(f, Init(0), x3, Mark(true), x4);
    LeadsThenStep(f, Init(0), x4, Tick(wait), WaitedOut());
  }

  lemma RetryPolled()
    ensures Leads(LOST_PUBLISH, Init(0), WaitedOut().(batch := [Polled(0, 1)]))
  {
    CreateSkipped();
    var x := WaitedOut();
    assert Pending(x.outbox, 2, 49) == [] && Pending(x.outbox, 1, 49) == [] && Pending(x.outbox, 0, 50) == [0];
    LeadsThenStep(LOST_PUBLISH, Init(0), x, Poll, x.(batch := [Polled(0, 1)]));
  }

  lemma CreateRetried()
    ensures Leads(LOST_PUBLISH, Init(0), AfterRetry(true, [1, 0], 0, map[]))
  {
    RetryPolled();
    var x1 := WaitedOut().(batch := [Polled(0, 1)]);
    var x2 := AfterRetry(false, [1, 0], 0, map[]).(unmarked := Some(0));
    assert Backoff.Apply(x1.retryTimers, Backoff.Clear(x1.now, 0)) == map[];
    LeadsThenStep(LOST_PUBLISH, Init(0), x1, Publish, x2);
    LeadsThenStep(LOST_PUBLISH, Init(0), x2, Mark(true), AfterRetry(true, [1, 0], 0, map[]));
  }

  /** And one publish failing: the loop goes on to the update, and the create follows it on a later tick. */
  lemma LostPublishReverts()
    ensures Leads(LOST_PUBLISH, Init(0), AfterRetry(true, [1, 0], 2, map[0 := OLD_ROW]))
  {
    var f := LOST_PUBLISH;
    CreateRetried();
    var x, x1 := AfterRetry(true, [1, 0], 0, map[]), AfterRetry(true, [1, 0], 1, map[]);
    LeadsThenStep(f, Init(0), x, DeliverNext(true), x1);
    LeadsThenStep(f, Init(0), x1, DeliverNext(true), AfterRetry(true, [1, 0], 2, map[0 := OLD_ROW]));
  }

  predicate OnlyRestarts(f: Faults) { !f.publish && !f.mark && !f.write && !f.redeliver }

  /** A drained pipeline has the two tables agree in every run if and only if no publish, no mark and no
      projection write can fail and nothing is delivered again. Each of the four alone breaks it; restarts of
      the publisher never do. */
  lemma DrainedAgreesExactly(f: Faults)
    ensures DrainedAgrees(f) <==> OnlyRestarts(f)
  {
    if f.publish {
      LostPublishReverts();
      DisagreementIn(LOST_PUBLISH, f, AfterRetry(true, [1, 0], 2, map[0 := OLD_ROW]));
    } else if f.mark {
      LostMarkReverts();
      DisagreementIn(LOST_MARK, f, Stage(true, true, [0, 1, 0], 3, map[0 := OLD_ROW]));
    } else if f.write {
      LostWriteStaysLost();
      DisagreementIn(LOST_WRITE, f, Stage(true, true, [0, 1], 2, map[]));
    } else if f.redeliver {
      RedeliveryReverts();
      DisagreementIn(REDELIVERED, f, Stage(true, true, [0, 1], 2, map[0 := OLD_ROW]));
    } else {
      RestartsAgree();
      assert forall steps :: AllWithin(f, steps) ==> AllWithin(RESTARTS, steps);
    }
  }

  /** ---------- The publisher's batch loop ---------- */

  /** What happens to one row of a batch: time passing before it, and the outcome of each call made for it;
      `stored` is a failed publish that is on the stream nevertheless. */
  datatype Fate = Fate(elapsed: nat, published: bool, stored: bool, marked: bool, incremented: bool)

  function Handled(x: System, fate: Fate): System {
    var y := Apply(x, Tick(x.now + fate.elapsed));
    if y.batch == [] then y
    else if Backoff.InBackoff(y.retryTimers, y.batch[0].row, y.now) then Apply(y, Skip)
    else if fate.published then Apply(Apply(y, Publish), Mark(fate.marked))
    else Apply(y, PublishFails(fate.stored, fate.incremented))
  }

  function HandledAll(x: System, fates: seq<Fate>): System
    decreases |fates|
  {
    if fates == [] || x.batch == [] then x else HandledAll(Handled(x, fates[0]), fates[1..])
  }

  const PUBLISHER_FAULTS := NONE.(publish := true, mark := true)

  lemma HandledIsRun(x: System, fate: Fate)
    requires x.batch != []
    ensures Leads(PUBLISHER_FAULTS, x, Handled(x, fate))
  {
    var f, y := PUBLISHER_FAULTS, Apply(x, Tick(x.now + fate.elapsed));
    LeadsByStep(f, x, Tick(x.now + fate.elapsed), y);
    if Backoff.InBackoff(y.retryTimers, y.batch[0].row, y.now) {
      LeadsThenStep(f, x, y, Skip, Apply(y, Skip));
    } else if fate.published {
      LeadsThenStep(f, x, y, Publish, Apply(y, Publish));
      LeadsThenStep(f, x, Apply(y, Publish), Mark(fate.marked), Handled(x, fate));
    } else {
      LeadsThenStep(f, x, y, PublishFails(fate.stored, fate.incremented), Handled(x, fate));
    }
  }

  /** A batch is a run of the state machine, so everything above holds of it. */
  lemma {:induction false} BatchIsRun(x: System, fates: seq<Fate>)
    ensures Leads(PUBLISHER_FAULTS, x, HandledAll(x, fates))
    decreases |fates|
  {
    if fates == [] || x.batch == [] {
      assert Run(x, []) == x && AllWithin(PUBLISHER_FAULTS, []);
    } else {
      HandledIsRun(x, fates[0]);
      BatchIsRun(Handled(x, fates[0]), fates[1..]);
      LeadsOn(PUBLISHER_FAULTS, x, Handled(x, fates[0]), HandledAll(x, fates));
    }
  }

  class OutboxPublisher {
    const store: CommandStore
    const timers: Backoff.RetryTimers
    var now: int
    var stream: seq<nat>

    constructor (store: CommandStore, timers: Backoff.RetryTimers, now: int)
      ensures this.store == store && this.timers == timers && this.now == now && this.stream == []
    {
      this.store, this.timers, this.now, this.stream := store, timers, now, [];
    }

    /** The publisher, its database and its timers hold what `x` says of them. */
    ghost predicate Holds(x: System)
      reads this, store, timers
    {
      now == x.now && store.outbox == x.outbox && timers.retryTimers == x.retryTimers && stream == x.stream
    }

    /** `processBatch`, one fate per polled row. */
    method ProcessBatch(ghost x: System, fates: seq<Fate>) returns (ghost y: System)
      requires Holds(x) && x.batch == [] && x.unmarked.None? && |fates| == BATCH_SIZE
      modifies this`now, this`stream, store`outbox, timers
      ensures y == HandledAll(Apply(x, Poll), fates) && Holds(y) && y.batch == [] && y.unmarked.None?
    {
      var rows := store.PollPending(BATCH_SIZE);
      var polled := store.outbox;
      ghost var start := Apply(x, Poll);
      y := start;
      var k := 0;
      while k < |rows|
        invariant 0 <= k <= |rows| <= BATCH_SIZE && |store.outbox| == |polled|
        invariant Holds(y) && y.unmarked.None? && y.batch == start.batch[k..]
        invariant HandledAll(y, fates[k..]) == HandledAll(start, fates)
      {
        ghost var z := y;
        y := Handled(z, fates[k]);
        HandledMovesOn(z, fates[k]);
        HandleRow(z, rows[k], polled[rows[k]].retryCount, fates[k]);
        assert fates[k..][1..] == fates[k + 1..];
        k := k + 1;
      }
    }

    method HandleRow(ghost x: System, row: nat, retryCount: nat, fate: Fate)
      requires Holds(x) && x.unmarked.None? && row < |store.outbox|
      requires x.batch != [] && x.batch[0] == Polled(row, retryCount)
      modifies this`now, this`stream, store`outbox, timers
      ensures Holds(Handled(x, fate)) && |store.outbox| == |old(store.outbox)|
    {
      now := now + fate.elapsed;
      var waiting := timers.IsInBackoff(row, now);
      if waiting {
        return;
      }
      if !fate.published {
        if fate.stored {
          stream := stream + [row];
        }
        if fate.incremented {
          store.IncrementRetry(row);
        }
        timers.SetBackoff(row, now, INTERVAL, retryCount + 1);
        return;
      }
      stream := stream + [row];
      timers.ClearBackoff(row, now);
      if fate.marked {
        store.MarkPublished(row);
      }
    }
  }

  lemma HandledMovesOn(x: System, fate: Fate)
    requires x.batch != [] && x.unmarked.None? && x.batch[0].row < |x.outbox|
    ensures Handled(x, fate).batch == x.batch[1..] && Handled(x, fate).unmarked.None?
  {
  }
}
