/**
 The two message tables of the CQRS pair and the code that changes them: the command side's
 transactions, each a row change and an outbox row together, and the projection's event handlers.
 Only id, room, author, kind, content and deleted-or-not are kept.
 */
module ChatTables {
  type MsgId = nat
  type RoomId = nat
  type UserId = nat

  datatype Row = Row(room: RoomId, author: UserId, kind: int, content: string, deleted: bool)

  type Table = map<MsgId, Row>

  datatype Event =
    | Created(id: MsgId, room: RoomId, author: UserId, kind: int, content: string)
    | Updated(id: MsgId, content: string)
    | Deleted(id: MsgId)

  datatype OutboxRow = OutboxRow(event: Event, published: bool, retryCount: nat)

  /** ---------- Command side ---------- */

  predicate Live(t: Table, id: MsgId) { id in t && !t[id].deleted }

  /** Whether the transaction for this change commits: a create needs an unused id, the others a live row. */
  predicate Accepts(t: Table, e: Event) {
    match e
    case Created(id, _, _, _, _) => id !in t
    case Updated(id, _) => Live(t, id)
    case Deleted(id) => Live(t, id)
  }

  function Write(t: Table, e: Event): Table
    requires Accepts(t, e)
  {
    match e
    case Created(id, room, author, kind, content) => t[id := Row(room, author, kind, content, false)]
    case Updated(id, content) => t[id := t[id].(content := content)]
    case Deleted(id) => t[id := t[id].(deleted := true)]
  }

  class CommandStore {
    var messages: map<MsgId, Row>
    var outbox: seq<OutboxRow>

    constructor ()
      ensures messages == map[] && outbox == []
    {
      messages, outbox := map[], [];
    }

    /** `ChatRepo.CreateMessage`: an INSERT, which the primary key refuses for a used id. */
    method InsertMessage(id: MsgId, row: Row) returns (ok: bool)
      modifies this`messages
      ensures ok == (id !in old(messages))
      ensures messages == if ok then old(messages)[id := row] else old(messages)
    {
      ok := id !in messages;
      if ok {
        messages := messages[id := row];
      }
    }

    /** `ChatRepo.UpdateMessage` / `DeleteMessage`: an UPDATE of the live row, an error when there is none. */
    method UpdateContent(id: MsgId, content: string) returns (ok: bool)
      modifies this`messages
      ensures ok == Live(old(messages), id)
      ensures messages == if ok then old(messages)[id := old(messages)[id].(content := content)] else old(messages)
    {
      ok := id in messages && !messages[id].deleted;
      if ok {
        messages := messages[id := messages[id].(content := content)];
      }
    }

    method MarkDeleted(id: MsgId) returns (ok: bool)
      modifies this`messages
      ensures ok == Live(old(messages), id)
      ensures messages == if ok then old(messages)[id := old(messages)[id].(deleted := true)] else old(messages)
    {
      ok := id in messages && !messages[id].deleted;
      if ok {
        messages := messages[id := messages[id].(deleted := true)];
      }
    }

    method InsertEvent(e: Event)
      modifies this`outbox
      ensures outbox == old(outbox) + [OutboxRow(e, false, 0)]
    {
      outbox := outbox + [OutboxRow(e, false, 0)];
    }

    /** The bodies of the three `uow.Do` closures: the row, then the event; an error in either rolls both back. */
    method Commit(e: Event, outboxFails: bool) returns (ok: bool)
      modifies this
      ensures ok == (Accepts(old(messages), e) && !outboxFails)
      ensures ok ==> messages == Write(old(messages), e) && outbox == old(outbox) + [OutboxRow(e, false, 0)]
      ensures !ok ==> messages == old(messages) && outbox == old(outbox)
    {
      var saved := messages;
      match e {
        case Created(id, room, author, kind, content) =>
          ok := InsertMessage(id, Row(room, author, kind, content, false));
        case Updated(id, content) => ok := UpdateContent(id, content);
        case Deleted(id) => ok := MarkDeleted(id);
      }
      if !ok {
        return;
      }
      if outboxFails {
        messages := saved;
        return false;
      }
      InsertEvent(e);
    }

    /** `PollPending`: the oldest unpublished rows with fewer than 20 failures. */
    method PollPending(batchSize: nat) returns (batch: seq<nat>)
      ensures batch == Pending(outbox, 0, batchSize)
    {
      batch := [];
      var i := 0;
      while i < |outbox| && |batch| < batchSize
        invariant i <= |outbox| && |batch| <= batchSize
        invariant batch + Pending(outbox, i, batchSize - |batch|) == Pending(outbox, 0, batchSize)
      {
        if !outbox[i].published && outbox[i].retryCount < MAX_RETRIES {
          batch := batch + [i];
        }
        i := i + 1;
      }
    }

    method MarkPublished(i: nat)
      requires i < |outbox|
      modifies this`outbox
      ensures outbox == old(outbox)[i := old(outbox)[i].(published := true)]
    {
      outbox := outbox[i := outbox[i].(published := true)];
    }

    method IncrementRetry(i: nat)
      requires i < |outbox|
      modifies this`outbox
      ensures outbox == old(outbox)[i := old(outbox)[i].(retryCount := old(outbox)[i].retryCount + 1)]
    {
      outbox := outbox[i := outbox[i].(retryCount := outbox[i].retryCount + 1)];
    }
  }

  const MAX_RETRIES: nat := 20

  /** The first `n` pending rows from row `i` on, oldest first. */
  function Pending(outbox: seq<OutboxRow>, i: nat, n: nat): (batch: seq<nat>)
    requires i <= |outbox|
    ensures |batch| <= n && forall k :: 0 <= k < |batch| ==> i <= batch[k] < |outbox|
    decreases |outbox| - i
  {
    if n == 0 || i == |outbox| then []
    else if !outbox[i].published && outbox[i].retryCount < MAX_RETRIES then [i] + Pending(outbox, i + 1, n - 1)
    else Pending(outbox, i + 1, n)
  }

  /** ---------- Query side ---------- */

  /** The effect of one event on the projection table. */
  function Project(p: Table, e: Event): Table {
    match e
    case Created(id, room, author, kind, content) =>
      p[id := if id in p then p[id].(content := content) else Row(room, author, kind, content, false)]
    case Updated(id, content) => if Live(p, id) then p[id := p[id].(content := content)] else p
    case Deleted(id) => if Live(p, id) then p[id := p[id].(deleted := true)] else p
  }

  function ProjectAll(p: Table, events: seq<Event>): Table
    decreases |events|
  {
    if events == [] then p else ProjectAll(Project(p, events[0]), events[1..])
  }

  class Projection {
    var rows: map<MsgId, Row>

    constructor ()
      ensures rows == map[]
    {
      rows := map[];
    }

    /** INSERT ... ON CONFLICT (id) DO UPDATE SET content: a tombstone stays a tombstone. */
    method Upsert(id: MsgId, row: Row)
      modifies this
      ensures rows == old(rows)[id := if id in old(rows) then old(rows)[id].(content := row.content) else row]
    {
      if id in rows {
        rows := rows[id := rows[id].(content := row.content)];
      } else {
        rows := rows[id := row];
      }
    }

    method UpdateContent(id: MsgId, content: string) returns (found: bool)
      modifies this
      ensures found == Live(old(rows), id)
      ensures rows == if found then old(rows)[id := old(rows)[id].(content := content)] else old(rows)
    {
      found := id in rows && !rows[id].deleted;
      if found {
        rows := rows[id := rows[id].(content := content)];
      }
    }

    method SoftDelete(id: MsgId) returns (found: bool)
      modifies this
      ensures found == Live(old(rows), id)
      ensures rows == if found then old(rows)[id := old(rows)[id].(deleted := true)] else old(rows)
    {
      found := id in rows && !rows[id].deleted;
      if found {
        rows := rows[id := rows[id].(deleted := true)];
      }
    }

    /** `ProjectionConsumer.Handle`. A repository call that `fails`, and a row that is missing, are logged and
        the event is dropped: it is acknowledged all the same. */
    method Handle(e: Event, fails: bool)
      modifies this
      ensures rows == if fails then old(rows) else Project(old(rows), e)
    {
      if fails {
        return;
      }
      match e {
        case Created(id, room, author, kind, content) => Upsert(id, Row(room, author, kind, content, false));
        case Updated(id, content) => var _ := UpdateContent(id, content);
        case Deleted(id) => var _ := SoftDelete(id);
      }
    }
  }

  /** On every change the write side accepts, the handler does to an equal table what the transaction did. */
  lemma HandlerMirrorsWrite(t: Table, e: Event)
    requires Accepts(t, e)
    ensures Project(t, e) == Write(t, e)
  {
  }

  /** ---------- Confluence ---------- */

  function EventsOf(events: seq<Event>, id: MsgId): seq<Event> {
    if events == [] then []
    else if events[0].id == id then [events[0]] + EventsOf(events[1..], id)
    else EventsOf(events[1..], id)
  }

  /** Immediate repeats of an event cut down to one. */
  function WithoutRepeats(events: seq<Event>): seq<Event>
    decreases |events|
  {
    if |events| <= 1 then events
    else if events[0] == events[1] then WithoutRepeats(events[1..])
    else [events[0]] + WithoutRepeats(events[1..])
  }

  ghost predicate SameRow(p: Table, q: Table, id: MsgId) {
    (id in p <==> id in q) && (id in p ==> p[id] == q[id])
  }

  /** A message's row depends on nothing but that message's own events, in order. */
  lemma {:induction false} RowDependsOnOwnEvents(p: Table, q: Table, events: seq<Event>, id: MsgId)
    requires SameRow(p, q, id)
    ensures SameRow(ProjectAll(p, events), ProjectAll(q, EventsOf(events, id)), id)
    decreases |events|
  {
    if events != [] {
      if events[0].id == id {
        assert EventsOf(events, id)[1..] == EventsOf(events[1..], id);
        RowDependsOnOwnEvents(Project(p, events[0]), Project(q, events[0]), events[1..], id);
      } else {
        RowDependsOnOwnEvents(Project(p, events[0]), q, events[1..], id);
      }
    }
  }

  lemma HandlingTwiceIsOnce(p: Table, e: Event)
    ensures Project(Project(p, e), e) == Project(p, e)
  {
  }

  lemma {:induction false} RepeatsDoNotMatter(p: Table, events: seq<Event>)
    ensures ProjectAll(p, WithoutRepeats(events)) == ProjectAll(p, events)
    decreases |events|
  {
    if |events| > 1 {
      if events[0] == events[1] {
        HandlingTwiceIsOnce(p, events[0]);
        RepeatsDoNotMatter(p, events[1..]);
      } else {
        RepeatsDoNotMatter(Project(p, events[0]), events[1..]);
      }
    }
  }

  /** Two deliveries that agree on each message's own events, up to immediate repeats, leave the same
      projection, however they interleave different messages. */
  lemma DeliveriesConfluent(p: Table, d1: seq<Event>, d2: seq<Event>)
    requires forall id :: WithoutRepeats(EventsOf(d1, id)) == WithoutRepeats(EventsOf(d2, id))
    ensures ProjectAll(p, d1) == ProjectAll(p, d2)
  {
    forall id ensures SameRow(ProjectAll(p, d1), ProjectAll(p, d2), id) {
      RowDependsOnOwnEvents(p, p, d1, id);
      RowDependsOnOwnEvents(p, p, d2, id);
      RepeatsDoNotMatter(p, EventsOf(d1, id));
      RepeatsDoNotMatter(p, EventsOf(d2, id));
    }
    SameRowsSameTable(ProjectAll(p, d1), ProjectAll(p, d2));
  }

  lemma SameRowsSameTable(p: Table, q: Table)
    requires forall id :: SameRow(p, q, id)
    ensures p == q
  {
    assert forall id :: id in p <==> id in q by {
      forall id ensures id in p <==> id in q { assert SameRow(p, q, id); }
    }
    assert forall id :: id in p ==> p[id] == q[id] by {
      forall id | id in p ensures p[id] == q[id] { assert SameRow(p, q, id); }
    }
  }

  /** ---------- What a delivery leaves ---------- */

  predicate HasCreate(events: seq<Event>) { exists i :: 0 <= i < |events| && events[i].Created? }

  predicate DeletedAfterCreate(events: seq<Event>) {
    exists i, k :: 0 <= i < k < |events| && events[i].Created? && events[k].Deleted?
  }

  function FirstCreate(events: seq<Event>): (e: Event)
    requires HasCreate(events)
    ensures e.Created?
  {
    if events[0].Created? then events[0] else FirstCreate(events[1..])
  }

  /** The content of the last event that counts: a create always does, an update only between the first
      create and the first deletion after it. */
  function LastContent(events: seq<Event>): string
    requires HasCreate(events)
  {
    var n := |events| - 1;
    if events[n].Created? then events[n].content
    else if events[n].Updated? && !DeletedAfterCreate(events[..n]) then events[n].content
    else LastContent(events[..n])
  }

  function RowLeft(events: seq<Event>): Row
    requires HasCreate(events)
  {
    var e := FirstCreate(events);
    Row(e.room, e.author, e.kind, LastContent(events), DeletedAfterCreate(events))
  }

  /** Two histories of one message that leave the same. */
  predicate LeaveTheSame(a: seq<Event>, b: seq<Event>) {
    (HasCreate(a) <==> HasCreate(b)) && (HasCreate(a) ==> RowLeft(a) == RowLeft(b))
  }

  lemma {:induction false} ProjectOneMore(p: Table, events: seq<Event>, e: Event)
    ensures ProjectAll(p, events + [e]) == Project(ProjectAll(p, events), e)
    decreases |events|
  {
    if events == [] {
      assert ProjectAll(p, [e]) == ProjectAll(Project(p, e), [e][1..]);
    } else {
      assert (events + [e])[1..] == events[1..] + [e];
      ProjectOneMore(Project(p, events[0]), events[1..], e);
    }
  }

  lemma {:induction false} FirstCreateStays(events: seq<Event>, e: Event)
    requires HasCreate(events)
    ensures HasCreate(events + [e]) && FirstCreate(events + [e]) == FirstCreate(events)
    decreases |events|
  {
    assert forall i :: 0 <= i < |events| ==> (events + [e])[i] == events[i];
    if !events[0].Created? {
      var i :| 0 <= i < |events| && events[i].Created?;
      assert events[1..][i - 1].Created?;
      assert (events + [e])[1..] == events[1..] + [e];
      FirstCreateStays(events[1..], e);
    }
  }

  lemma {:induction false} FirstCreateIsLast(events: seq<Event>, e: Event)
    requires !HasCreate(events) && e.Created?
    ensures HasCreate(events + [e]) && FirstCreate(events + [e]) == e
    decreases |events|
  {
    assert (events + [e])[|events|] == e;
    if events != [] {
      assert forall i :: 0 <= i < |events[1..]| ==> events[1..][i] == events[i + 1];
      assert !HasCreate(events[1..]);
      assert (events + [e])[1..] == events[1..] + [e];
      assert !events[0].Created?;
      FirstCreateIsLast(events[1..], e);
    }
  }

  lemma MarksAfterOneMore(events: seq<Event>, e: Event)
    ensures HasCreate(events + [e]) <==> HasCreate(events) || e.Created?
    ensures DeletedAfterCreate(events + [e]) <==> DeletedAfterCreate(events) || (HasCreate(events) && e.Deleted?)
  {
    var all := events + [e];
    assert forall i :: 0 <= i < |events| ==> all[i] == events[i];
    assert all[|events|] == e;
    if HasCreate(events) && e.Deleted? {
      var i :| 0 <= i < |events| && events[i].Created?;
      assert all[i].Created? && all[|events|].Deleted?;
    }
    if DeletedAfterCreate(events) {
      var i, k :| 0 <= i < k < |events| && events[i].Created? && events[k].Deleted?;
      assert all[i].Created? && all[k].Deleted?;
    }
  }

  /** A message's row after its own events, whatever order and repeats they came in. */
  lemma {:induction false} OwnEventsLeave(events: seq<Event>, id: MsgId)
    requires forall i :: 0 <= i < |events| ==> events[i].id == id
    ensures id in ProjectAll(map[], events) <==> HasCreate(events)
    ensures HasCreate(events) ==> ProjectAll(map[], events)[id] == RowLeft(events)
    decreases |events|
  {
    if events != [] {
      var n := |events| - 1;
      var before, e := events[..n], events[n];
      assert events == before + [e];
      OwnEventsLeave(before, id);
      ProjectOneMore(map[], before, e);
      MarksAfterOneMore(before, e);
      if HasCreate(before) {
        FirstCreateStays(before, e);
      } else if e.Created? {
        FirstCreateIsLast(before, e);
      }
    }
  }

  lemma {:induction false} EventsOfAreOwn(events: seq<Event>, id: MsgId)
    ensures forall i :: 0 <= i < |EventsOf(events, id)| ==> EventsOf(events, id)[i].id == id
    decreases |events|
  {
    if events != [] {
      EventsOfAreOwn(events[1..], id);
    }
  }

  /** Exactly what a delivery leaves of a message, for any delivery at all. */
  lemma DeliveryLeaves(d: seq<Event>, id: MsgId)
    ensures id in ProjectAll(map[], d) <==> HasCreate(EventsOf(d, id))
    ensures HasCreate(EventsOf(d, id)) ==> ProjectAll(map[], d)[id] == RowLeft(EventsOf(d, id))
  {
    RowDependsOnOwnEvents(map[], map[], d, id);
    EventsOfAreOwn(d, id);
    OwnEventsLeave(EventsOf(d, id), id);
  }

  ghost predicate AgreeOn(d1: seq<Event>, d2: seq<Event>, id: MsgId) {
    LeaveTheSame(EventsOf(d1, id), EventsOf(d2, id))
  }

  lemma SameRowsLeft(d1: seq<Event>, d2: seq<Event>, id: MsgId)
    ensures SameRow(ProjectAll(map[], d1), ProjectAll(map[], d2), id) <==> AgreeOn(d1, d2, id)
  {
    DeliveryLeaves(d1, id);
    DeliveryLeaves(d2, id);
  }

  /** Two deliveries leave the same projection if and only if, for each message, both or neither have a
      create, the first creates agree, the last content that counts agrees, and both or neither delete it
      after creating it. */
  lemma DeliveriesAgreeExactly(d1: seq<Event>, d2: seq<Event>)
    ensures ProjectAll(map[], d1) == ProjectAll(map[], d2) <==> forall id :: AgreeOn(d1, d2, id)
  {
    var p, q := ProjectAll(map[], d1), ProjectAll(map[], d2);
    forall id ensures SameRow(p, q, id) <==> AgreeOn(d1, d2, id) { SameRowsLeft(d1, d2, id); }
    if forall id :: AgreeOn(d1, d2, id) {
      forall id ensures SameRow(p, q, id) { assert AgreeOn(d1, d2, id); }
      SameRowsSameTable(p, q);
    } else {
      var id :| !AgreeOn(d1, d2, id);
      assert !SameRow(p, q, id);
    }
  }
}
