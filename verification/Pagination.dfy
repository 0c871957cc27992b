/**
 Keyset pagination over the message projection: `ListByRoomId` with its cursor (newest first) and
 `ListAfterByRoomId` (oldest first), and what a client gets that follows them from page to page while
 the projection changes underneath. A row is shown by its key; the other columns play no part.
 */
module Pagination {
  import opened Wrappers

  type RoomId = nat
  type Id = nat

  const DEFAULT_LIMIT := 50
  const MAX_LIMIT := 200

  datatype Row = Row(room: RoomId, created: int, deleted: bool)
  type Table = map<Id, Row>

  datatype Key = Key(created: int, id: Id)
  datatype Direction = Newest | Oldest
  datatype Cursor = Start | At(key: Key) | Malformed

  predicate Less(a: Key, b: Key) { a.created < b.created || (a.created == b.created && a.id < b.id) }

  predicate Ahead(d: Direction, a: Key, b: Key) { if d.Newest? then Less(b, a) else Less(a, b) }

  predicate Past(d: Direction, cursor: Cursor, k: Key) { cursor.At? ==> Ahead(d, cursor.key, k) }

  function LiveKeys(t: Table, room: RoomId): set<Key> {
    set id | id in t && t[id].room == room && !t[id].deleted :: Key(t[id].created, id)
  }

  function Beyond(d: Direction, t: Table, room: RoomId, cursor: Cursor): set<Key> {
    set k | k in LiveKeys(t, room) && Past(d, cursor, k)
  }

  /** ---------- Order by ... limit n ---------- */

  predicate Leads(d: Direction, m: Key, s: set<Key>) { m in s && forall k :: k in s && k != m ==> Ahead(d, m, k) }

  lemma {:induction false} SomeKeyLeads(d: Direction, s: set<Key>) returns (m: Key)
    requires s != {}
    ensures Leads(d, m, s)
    decreases |s|
  {
    var x :| x in s;
    var rest := s - {x};
    if rest == {} {
      m := x;
    } else {
      var y := SomeKeyLeads(d, rest);
      m := if Ahead(d, x, y) then x else y;
    }
    assert forall k :: k in s && k != x ==> k in rest;
  }

  function First(d: Direction, s: set<Key>): (m: Key)
    requires s != {}
    ensures Leads(d, m, s)
  {
    assert exists m :: Leads(d, m, s) by { var m := SomeKeyLeads(d, s); }
    var m :| m in s && Leads(d, m, s);
    m
  }

  /** The rows of `s` in scan order, cut at `n`. */
  function Select(d: Direction, s: set<Key>, n: nat): seq<Key>
    decreases n
  {
    if s == {} || n == 0 then [] else
    var m := First(d, s);
    [m] + Select(d, s - {m}, n - 1)
  }

  ghost predicate InOrder(d: Direction, r: seq<Key>) {
    forall i, j :: 0 <= i < j < |r| ==> Ahead(d, r[i], r[j])
  }

  lemma JoinInOrder(d: Direction, a: seq<Key>, b: seq<Key>)
    requires InOrder(d, a) && InOrder(d, b)
    requires forall k :: k in b && a != [] ==> Ahead(d, a[|a| - 1], k)
    ensures InOrder(d, a + b)
  {
    forall i, j | 0 <= i < j < |a + b|
      ensures Ahead(d, (a + b)[i], (a + b)[j])
    {
      if i < |a| <= j {
        assert b[j - |a|] in b;
        assert i == |a| - 1 || Ahead(d, a[i], a[|a| - 1]);
      }
    }
  }

  lemma {:induction false} SelectTakes(d: Direction, s: set<Key>, n: nat)
    ensures InOrder(d, Select(d, s, n))
    ensures |Select(d, s, n)| == if n <= |s| then n else |s|
    ensures forall k :: k in Select(d, s, n) ==> k in s
    ensures forall k, x :: k in s && k !in Select(d, s, n) && x in Select(d, s, n) ==> Ahead(d, x, k)
    decreases n
  {
    if s != {} && n != 0 {
      var m := First(d, s);
      var rest := Select(d, s - {m}, n - 1);
      SelectTakes(d, s - {m}, n - 1);
      assert forall i :: 0 <= i < |rest| ==> rest[i] in s - {m};
      JoinInOrder(d, [m], rest);
    }
  }

  lemma HeadIsFirst(d: Direction, s: set<Key>, r: seq<Key>)
    requires InOrder(d, r) && r != [] && s != {} && forall k :: k in r ==> k in s
    requires forall k, x :: k in s && k !in r && x in r ==> Ahead(d, x, k)
    ensures r[0] == First(d, s)
  {
    var m := First(d, s);
    assert r[0] in r && r[0] in s;
    if m in r {
      var i :| 0 <= i < |r| && r[i] == m;
      assert i == 0 || Ahead(d, r[0], r[i]);
    }
    assert m == r[0] || Ahead(d, r[0], m);
  }

  lemma TailIsRest(d: Direction, s: set<Key>, r: seq<Key>)
    requires InOrder(d, r) && r != [] && r[0] in s && forall k :: k in r ==> k in s
    requires forall k, x :: k in s && k !in r && x in r ==> Ahead(d, x, k)
    ensures InOrder(d, r[1..]) && forall k :: k in r[1..] ==> k in s - {r[0]}
    ensures forall k, x :: k in s - {r[0]} && k !in r[1..] && x in r[1..] ==> Ahead(d, x, k)
  {
    assert forall i :: 1 <= i < |r| ==> r[i] == r[1..][i - 1] && Ahead(d, r[0], r[i]);
    assert r == [r[0]] + r[1..];
  }

  /** There is only one list of `n` rows in order with every other row after it. */
  lemma {:induction false} SelectIsTheOnly(d: Direction, s: set<Key>, n: nat, r: seq<Key>)
    requires InOrder(d, r) && |r| == if n <= |s| then n else |s|
    requires forall k :: k in r ==> k in s
    requires forall k, x :: k in s && k !in r && x in r ==> Ahead(d, x, k)
    ensures r == Select(d, s, n)
    decreases n
  {
    if r != [] {
      HeadIsFirst(d, s, r);
      TailIsRest(d, s, r);
      SelectIsTheOnly(d, s - {r[0]}, n - 1, r[1..]);
    }
  }

  lemma {:induction false} SelectPrefix(d: Direction, s: set<Key>, n: nat, more: nat)
    requires n <= more
    ensures Select(d, s, n) <= Select(d, s, more)
    decreases n
  {
    if s != {} && n != 0 {
      SelectPrefix(d, s - {First(d, s)}, n - 1, more - 1);
    }
  }

  /** The rows left after `Select`. */
  function Rest(d: Direction, s: set<Key>, n: nat): set<Key>
    decreases n
  {
    if s == {} || n == 0 then s else Rest(d, s - {First(d, s)}, n - 1)
  }

  lemma {:induction false} RestSize(d: Direction, s: set<Key>, n: nat)
    ensures |Rest(d, s, n)| == if n <= |s| then |s| - n else 0
    decreases n
  {
    if s != {} && n != 0 {
      RestSize(d, s - {First(d, s)}, n - 1);
    }
  }

  lemma {:induction false} SelectInTwo(d: Direction, s: set<Key>, n: nat, all: nat)
    requires n <= all
    ensures Select(d, s, all) == Select(d, s, n) + Select(d, Rest(d, s, n), all - n)
    decreases n
  {
    if s != {} && n != 0 {
      var m := First(d, s);
      SelectInTwo(d, s - {m}, n - 1, all - 1);
      var front, back := Select(d, s - {m}, n - 1), Select(d, Rest(d, s, n), all - n);
      assert Select(d, s - {m}, all - 1) == front + back;
      assert [m] + (front + back) == [m] + front + back;
    }
  }

  lemma {:induction false} RestIsTheOthers(d: Direction, s: set<Key>, n: nat, k: Key)
    ensures k in Rest(d, s, n) <==> k in s && k !in Select(d, s, n)
    decreases n
  {
    if s != {} && n != 0 {
      var m := First(d, s);
      RestIsTheOthers(d, s - {m}, n - 1, k);
      SelectTakes(d, s - {m}, n - 1);
      assert Select(d, s, n) == [m] + Select(d, s - {m}, n - 1);
    }
  }

  /** ---------- The two queries ---------- */

  datatype Reply = Page(rows: seq<Key>, next: Option<Key>) | BadCursor

  function PageSize(limit: int, otherwise: nat): (n: nat)
    requires 0 < otherwise <= MAX_LIMIT
    ensures 0 < n <= MAX_LIMIT
  {
    if limit <= 0 || MAX_LIMIT < limit then otherwise else limit
  }

  function ListByRoomId(t: Table, room: RoomId, cursor: Cursor, limit: int): Reply {
    var size := PageSize(limit, DEFAULT_LIMIT);
    if cursor.Malformed? then BadCursor else
    var fetched := Select(Newest, Beyond(Newest, t, room, cursor), size + 1);
    var hasMore := size < |fetched|;
    var rows := if hasMore then fetched[..size] else fetched;
    Page(rows, if hasMore && rows != [] then Some(rows[|rows| - 1]) else None)
  }

  /** No cursor comes back; an empty one is not a cursor. */
  function ListAfterByRoomId(t: Table, room: RoomId, after: Cursor, limit: int): Option<seq<Key>> {
    if !after.At? then None else
    Some(Select(Oldest, Beyond(Oldest, t, room, after), PageSize(limit, MAX_LIMIT)))
  }

  predicate Usable(d: Direction, cursor: Cursor) { cursor.At? || (cursor.Start? && d.Newest?) }

  function SizeOf(d: Direction, limit: int): (n: nat)
    ensures 0 < n <= MAX_LIMIT
    ensures n == if 1 <= limit <= 200 then limit else if d.Newest? then 50 else 200
  {
    PageSize(limit, if d.Newest? then DEFAULT_LIMIT else MAX_LIMIT)
  }

  /** What a client that wants everything does next: follow the cursor it was given, or, going forward,
      ask after the last row of every full page. */
  function Ask(d: Direction, t: Table, room: RoomId, cursor: Cursor, limit: int): Reply {
    match d
    case Newest => ListByRoomId(t, room, cursor, limit)
    case Oldest =>
      match ListAfterByRoomId(t, room, cursor, limit)
      case None => BadCursor
      case Some(rows) =>
        Page(rows, if rows != [] && |rows| == SizeOf(d, limit) then Some(rows[|rows| - 1]) else None)
  }

  /** A page is the nearest rows beyond the cursor. Backward, there is a next cursor exactly if more rows
      are left; forward, exactly if the page is full. */
  lemma PageIsNearest(d: Direction, t: Table, room: RoomId, cursor: Cursor, limit: int)
    requires Usable(d, cursor)
    ensures var s, size, p := Beyond(d, t, room, cursor), SizeOf(d, limit), Ask(d, t, room, cursor, limit);
      && p.Page? && p.rows == Select(d, s, size)
      && (p.next.Some? <==> (if d.Newest? then size < |s| else size <= |s|))
      && (p.next.Some? ==> |p.rows| == size && p.next.value == p.rows[size - 1])
  {
    var s, size := Beyond(d, t, room, cursor), SizeOf(d, limit);
    SelectTakes(d, s, size);
    if d.Newest? {
      SelectTakes(d, s, size + 1);
      SelectPrefix(d, s, size, size + 1);
      var fetched := Select(d, s, size + 1);
      assert size < |fetched| ==> fetched[..size] == Select(d, s, size);
    }
  }

  /** ---------- The same in plain terms ---------- */

  /** The undeleted messages of the room beyond the cursor: older ones newest first, newer ones oldest first. */
  function IdsBeyond(d: Direction, t: Table, room: RoomId, cursor: Cursor): set<Id> {
    set id | id in t && t[id].room == room && !t[id].deleted && (cursor.At? ==>
      if d.Newest? then t[id].created < cursor.key.created || (t[id].created == cursor.key.created && id < cursor.key.id)
      else cursor.key.created < t[id].created || (t[id].created == cursor.key.created && cursor.key.id < id))
  }

  lemma {:induction false} AsManyIds(s: set<Key>, ids: set<Id>)
    requires forall k, l :: k in s && l in s && k.id == l.id ==> k == l
    requires forall k :: k in s ==> k.id in ids
    requires forall id :: id in ids ==> exists k :: k in s && k.id == id
    ensures |ids| == |s|
    decreases |s|
  {
    if s == {} {
      assert ids == {};
    } else {
      var k :| k in s;
      forall id | id in ids - {k.id} ensures exists l :: l in s - {k} && l.id == id {
        var l :| l in s && l.id == id;
        assert l in s - {k};
      }
      AsManyIds(s - {k}, ids - {k.id});
    }
  }

  lemma CountBeyond(d: Direction, t: Table, room: RoomId, cursor: Cursor)
    ensures |Beyond(d, t, room, cursor)| == |IdsBeyond(d, t, room, cursor)|
  {
    var s, ids := Beyond(d, t, room, cursor), IdsBeyond(d, t, room, cursor);
    forall id | id in ids ensures exists k :: k in s && k.id == id {
      assert Key(t[id].created, id) in s;
    }
    AsManyIds(s, ids);
  }

  /** The rows of a page: undeleted messages of the room beyond the cursor, `size` of them or all there are. */
  ghost predicate IsPage(d: Direction, t: Table, room: RoomId, cursor: Cursor, rows: seq<Key>, size: nat) {
    && |rows| == (if |IdsBeyond(d, t, room, cursor)| <= size then |IdsBeyond(d, t, room, cursor)| else size)
    && (forall k :: k in rows ==> k.id in IdsBeyond(d, t, room, cursor) && t[k.id].created == k.created)
  }

  /** Backward: limits from 1 to 200 are taken as they are, any other as 50. The next cursor is the last row,
      exactly if there are more rows than the page has, and only a malformed cursor is refused. */
  lemma ListByRoomIdGives(t: Table, room: RoomId, cursor: Cursor, limit: int)
    ensures ListByRoomId(t, room, cursor, limit).BadCursor? <==> cursor.Malformed?
    ensures !cursor.Malformed? ==>
      var p := ListByRoomId(t, room, cursor, limit);
      && IsPage(Newest, t, room, cursor, p.rows, if 1 <= limit <= 200 then limit else 50)
      && (p.next.Some? <==> |p.rows| < |IdsBeyond(Newest, t, room, cursor)|)
      && (p.next.Some? ==> p.rows != [] && p.next.value == p.rows[|p.rows| - 1])
  {
    if !cursor.Malformed? {
      PageIsNearest(Newest, t, room, cursor, limit);
      SelectTakes(Newest, Beyond(Newest, t, room, cursor), SizeOf(Newest, limit));
      CountBeyond(Newest, t, room, cursor);
    }
  }

  /** Forward: limits from 1 to 200 are taken as they are, any other as 200; without a cursor there is no page. */
  lemma ListAfterByRoomIdGives(t: Table, room: RoomId, after: Cursor, limit: int)
    ensures ListAfterByRoomId(t, room, after, limit).Some? <==> after.At?
    ensures after.At? ==>
      IsPage(Oldest, t, room, after, ListAfterByRoomId(t, room, after, limit).value, if 1 <= limit <= 200 then limit else 200)
  {
    if after.At? {
      SelectTakes(Oldest, Beyond(Oldest, t, room, after), SizeOf(Oldest, limit));
      CountBeyond(Oldest, t, room, after);
    }
  }

  /** ---------- Changes between pages ---------- */

  datatype Write = Upsert(id: Id, room: RoomId, created: int) | SoftDelete(id: Id)

  function AfterWrite(t: Table, w: Write): Table {
    match w
    case Upsert(id, room, created) => if id in t then t else t[id := Row(room, created, false)]
    case SoftDelete(id) => if id in t then t[id := t[id].(deleted := true)] else t
  }

  function AfterWrites(t: Table, ws: seq<Write>): Table
    decreases |ws|
  {
    if ws == [] then t else AfterWrites(AfterWrite(t, ws[0]), ws[1..])
  }

  /** The table as each request finds it, when `gaps[i]` is written between requests i and i + 1. */
  function Tables(t: Table, gaps: seq<seq<Write>>): seq<Table>
    decreases |gaps|
  {
    if gaps == [] then [t] else [t] + Tables(AfterWrites(t, gaps[0]), gaps[1..])
  }

  /** A message created anew is in its room's pages from then on, one soft-deleted in none, and nothing else
      changes by either. */
  lemma WriteShows(t: Table, w: Write, room: RoomId)
    ensures var before, after := LiveKeys(t, room), LiveKeys(AfterWrite(t, w), room);
      && (w.Upsert? ==> after == before + if w.id !in t && w.room == room then {Key(w.created, w.id)} else {})
      && (w.SoftDelete? ==> after == set k | k in before && k.id != w.id)
  {
    forall k: Key
      ensures k in LiveKeys(AfterWrite(t, w), room) <==>
        (k in LiveKeys(t, room) && !(w.SoftDelete? && k.id == w.id)) ||
        (w.Upsert? && w.id !in t && w.room == room && k == Key(w.created, w.id))
    {
      InLiveKeys(t, room, k);
      InLiveKeys(AfterWrite(t, w), room, k);
    }
  }

  lemma InLiveKeys(t: Table, room: RoomId, k: Key)
    ensures k in LiveKeys(t, room) <==> k.id in t && t[k.id] == Row(room, k.created, false)
  {
  }

  ghost predicate Evolves(t: Table, u: Table) {
    forall id :: id in t ==>
      id in u && u[id].room == t[id].room && u[id].created == t[id].created && (t[id].deleted ==> u[id].deleted)
  }

  ghost predicate Evolving(tables: seq<Table>) {
    forall i, j :: 0 <= i <= j < |tables| ==> Evolves(tables[i], tables[j])
  }

  lemma {:induction false} WritesEvolve(t: Table, ws: seq<Write>)
    ensures Evolves(t, AfterWrites(t, ws))
    decreases |ws|
  {
    if ws != [] {
      WritesEvolve(AfterWrite(t, ws[0]), ws[1..]);
      assert Evolves(t, AfterWrite(t, ws[0]));
    }
  }

  /** Whatever the projection handlers write between requests, the tables only evolve. */
  lemma {:induction false} TablesEvolve(t: Table, gaps: seq<seq<Write>>)
    ensures Evolving(Tables(t, gaps))
    ensures forall i :: 0 <= i < |Tables(t, gaps)| ==> Evolves(t, Tables(t, gaps)[i])
    decreases |gaps|
  {
    if gaps != [] {
      var u := AfterWrites(t, gaps[0]);
      WritesEvolve(t, gaps[0]);
      TablesEvolve(u, gaps[1..]);
      assert forall i :: 1 <= i < |Tables(t, gaps)| ==> Tables(t, gaps)[i] == Tables(u, gaps[1..])[i - 1];
    }
  }

  /** ---------- Following the cursors ---------- */

  datatype Walk = Walk(rows: seq<Key>, pages: nat, done: bool)

  /** One request per table, until a reply has no next cursor. */
  function Follow(d: Direction, tables: seq<Table>, room: RoomId, cursor: Cursor, limit: int): Walk
    decreases |tables|
  {
    if tables == [] then Walk([], 0, false) else
    match Ask(d, tables[0], room, cursor, limit)
    case BadCursor => Walk([], 1, false)
    case Page(rows, next) =>
      if next.None? then Walk(rows, 1, true) else
      var rest := Follow(d, tables[1..], room, At(next.value), limit);
      Walk(rows + rest.rows, rest.pages + 1, rest.done)
  }

  ghost predicate LiveThroughout(tables: seq<Table>, room: RoomId, k: Key) {
    forall i :: 0 <= i < |tables| ==> k in LiveKeys(tables[i], room)
  }

  ghost predicate LiveAtSome(tables: seq<Table>, room: RoomId, k: Key) {
    exists i :: 0 <= i < |tables| && k in LiveKeys(tables[i], room)
  }

  /** The rows of a walk come strictly in scan order, each from beyond the starting cursor. */
  lemma {:induction false} RowsComeInOrder(d: Direction, tables: seq<Table>, room: RoomId, cursor: Cursor, limit: int)
    requires Usable(d, cursor)
    ensures var w := Follow(d, tables, room, cursor, limit);
      InOrder(d, w.rows) && w.pages <= |tables| && forall k :: k in w.rows ==> Past(d, cursor, k)
    decreases |tables|
  {
    if tables != [] {
      var p := Ask(d, tables[0], room, cursor, limit);
      PageIsNearest(d, tables[0], room, cursor, limit);
      SelectTakes(d, Beyond(d, tables[0], room, cursor), SizeOf(d, limit));
      if p.next.Some? {
        var rest := Follow(d, tables[1..], room, At(p.next.value), limit);
        RowsComeInOrder(d, tables[1..], room, At(p.next.value), limit);
        JoinInOrder(d, p.rows, rest.rows);
        assert p.next.value in p.rows && Past(d, cursor, p.next.value);
      }
    }
  }

  /** Each row of a walk was live when it was fetched. */
  lemma {:induction false} RowsWereLive(
      d: Direction, tables: seq<Table>, room: RoomId, cursor: Cursor, limit: int, k: Key)
    requires Usable(d, cursor) && k in Follow(d, tables, room, cursor, limit).rows
    ensures LiveAtSome(tables, room, k)
    decreases |tables|
  {
    var p := Ask(d, tables[0], room, cursor, limit);
    PageIsNearest(d, tables[0], room, cursor, limit);
    SelectTakes(d, Beyond(d, tables[0], room, cursor), SizeOf(d, limit));
    if k in p.rows {
      assert k in LiveKeys(tables[0], room);
    } else {
      RowsWereLive(d, tables[1..], room, At(p.next.value), limit, k);
      var i :| 0 <= i < |tables[1..]| && k in LiveKeys(tables[1..][i], room);
      assert tables[1..][i] == tables[i + 1];
    }
  }

  lemma {:induction false} SelectAll(d: Direction, s: set<Key>, n: nat)
    requires |s| <= n
    ensures forall k :: k in s ==> k in Select(d, s, n)
    decreases n
  {
    if s != {} {
      SelectAll(d, s - {First(d, s)}, n - 1);
    }
  }

  /** A live row beyond the cursor is on the page or beyond the next cursor. */
  lemma OnPageOrBeyond(d: Direction, t: Table, room: RoomId, cursor: Cursor, limit: int, k: Key)
    requires Usable(d, cursor) && k in LiveKeys(t, room) && Past(d, cursor, k)
    ensures var p := Ask(d, t, room, cursor, limit);
      p.Page? && (k in p.rows || (p.next.Some? && Ahead(d, p.next.value, k)))
  {
    var s, size := Beyond(d, t, room, cursor), SizeOf(d, limit);
    PageIsNearest(d, t, room, cursor, limit);
    SelectTakes(d, s, size);
    assert k in s;
    if |s| <= size { SelectAll(d, s, size); }
  }

  /** A walk that ends has every row that was live the whole time. */
  lemma {:induction false} NothingIsSkipped(
      d: Direction, tables: seq<Table>, room: RoomId, cursor: Cursor, limit: int, k: Key)
    requires Usable(d, cursor) && Past(d, cursor, k)
    requires var w := Follow(d, tables, room, cursor, limit);
      w.done && w.pages <= |tables| && LiveThroughout(tables[..w.pages], room, k)
    ensures k in Follow(d, tables, room, cursor, limit).rows
    decreases |tables|
  {
    var w, p := Follow(d, tables, room, cursor, limit), Ask(d, tables[0], room, cursor, limit);
    assert tables[..w.pages][0] == tables[0];
    OnPageOrBeyond(d, tables[0], room, cursor, limit, k);
    if k !in p.rows {
      var rest := Follow(d, tables[1..], room, At(p.next.value), limit);
      assert forall i :: 0 <= i < rest.pages ==> tables[1..][..rest.pages][i] == tables[..w.pages][i + 1];
      NothingIsSkipped(d, tables[1..], room, At(p.next.value), limit, k);
    }
  }

  function Count(rows: seq<Key>, id: Id): nat {
    if rows == [] then 0 else (if rows[0].id == id then 1 else 0) + Count(rows[1..], id)
  }

  lemma {:induction false} CountOfDistinct(rows: seq<Key>, id: Id)
    requires forall i, j :: 0 <= i < j < |rows| ==> rows[i].id != rows[j].id
    ensures Count(rows, id) == if exists i :: 0 <= i < |rows| && rows[i].id == id then 1 else 0
  {
    if rows != [] {
      CountOfDistinct(rows[1..], id);
      assert forall i :: 1 <= i < |rows| ==> rows[i] == rows[1..][i - 1];
    }
  }

  /** Following the cursors while the projection changes: no message comes twice, and one that was live in
      the room at every request, beyond the starting cursor, comes exactly once. */
  lemma EveryRowOnce(d: Direction, tables: seq<Table>, room: RoomId, cursor: Cursor, limit: int, id: Id)
    requires Usable(d, cursor) && Evolving(tables)
    ensures var w := Follow(d, tables, room, cursor, limit);
      && w.pages <= |tables| && Count(w.rows, id) <= 1
      && (w.done && (exists created :: Past(d, cursor, Key(created, id)) &&
                                       LiveThroughout(tables[..w.pages], room, Key(created, id)))
          ==> Count(w.rows, id) == 1)
  {
    var w := Follow(d, tables, room, cursor, limit);
    RowsComeInOrder(d, tables, room, cursor, limit);
    forall i, j | 0 <= i < j < |w.rows|
      ensures w.rows[i].id != w.rows[j].id
    {
      var a, b := w.rows[i], w.rows[j];
      assert a in w.rows && b in w.rows && Ahead(d, a, b);
      RowsWereLive(d, tables, room, cursor, limit, a);
      RowsWereLive(d, tables, room, cursor, limit, b);
      var p :| 0 <= p < |tables| && a in LiveKeys(tables[p], room);
      var q :| 0 <= q < |tables| && b in LiveKeys(tables[q], room);
      assert Evolves(tables[p], tables[q]) || Evolves(tables[q], tables[p]);
    }
    CountOfDistinct(w.rows, id);
    if w.done {
      forall created | Past(d, cursor, Key(created, id)) && LiveThroughout(tables[..w.pages], room, Key(created, id))
        ensures exists i :: 0 <= i < |w.rows| && w.rows[i].id == id
      {
        NothingIsSkipped(d, tables, room, cursor, limit, Key(created, id));
      }
    }
  }

  /** The same with the tables that the projection's handlers make of `t`, whatever they write in between. */
  lemma EveryRowOnceWhileWriting(
      d: Direction, t: Table, gaps: seq<seq<Write>>, room: RoomId, cursor: Cursor, limit: int, id: Id)
    requires Usable(d, cursor)
    ensures var tables := Tables(t, gaps);
      var w := Follow(d, tables, room, cursor, limit);
      && w.pages <= |tables| && Count(w.rows, id) <= 1
      && (w.done && (exists created :: Past(d, cursor, Key(created, id)) &&
                                       LiveThroughout(tables[..w.pages], room, Key(created, id)))
          ==> Count(w.rows, id) == 1)
  {
    TablesEvolve(t, gaps);
    EveryRowOnce(d, Tables(t, gaps), room, cursor, limit, id);
  }

  /** ---------- A table that stays as it is ---------- */

  function PagesFor(d: Direction, n: nat, size: nat): nat
    requires 0 < size
  {
    if d.Oldest? then n / size + 1 else if n == 0 then 1 else (n + size - 1) / size
  }

  lemma ProductNotNegative(x: nat, y: nat)
    ensures 0 <= x * y
  {
  }

  lemma ProductsApart(p: int, q: int, size: nat)
    requires p < q
    ensures p * size + size <= q * size
  {
    var e := q - p - 1;
    ProductNotNegative(e, size);
    assert (p + 1 + e) * size == p * size + size + e * size;
  }

  lemma QuotientIs(a: int, size: nat, q: int)
    requires 0 < size && q * size <= a < q * size + size
    ensures a / size == q
  {
    var p := a / size;
    assert a == p * size + a % size;
    if p < q {
      ProductsApart(p, q, size);
    } else if q < p {
      ProductsApart(q, p, size);
    }
  }

  lemma DivideBack(n: int, size: nat)
    requires 0 < size
    ensures (n + size) / size == n / size + 1
  {
    var q := n / size;
    assert n == q * size + n % size;
    assert (q + 1) * size == q * size + size;
    QuotientIs(n + size, size, q + 1);
  }

  lemma OnePageLess(d: Direction, n: nat, size: nat)
    requires 0 < size
    ensures (if d.Newest? then size < n else size <= n) ==> PagesFor(d, n, size) == PagesFor(d, n - size, size) + 1
    ensures !(if d.Newest? then size < n else size <= n) ==> PagesFor(d, n, size) == 1
  {
    if d.Newest? {
      DivideBack(n - 1, size);
      if size < n {
        DivideBack(n - 1 - size, size);
        assert n - size + size - 1 == n - 1 && n - 1 - size + size == n - 1;
      } else if 0 < n {
        QuotientIs(n + size - 1, size, 1);
      }
    } else if size <= n {
      DivideBack(n - size, size);
    } else {
      QuotientIs(n, size, 0);
    }
  }

  lemma BeyondThePage(d: Direction, t: Table, room: RoomId, cursor: Cursor, limit: int)
    requires Usable(d, cursor)
    requires var p := Ask(d, t, room, cursor, limit); p.Page? && p.next.Some?
    ensures var p, s := Ask(d, t, room, cursor, limit), Beyond(d, t, room, cursor);
      Beyond(d, t, room, At(p.next.value)) == Rest(d, s, SizeOf(d, limit))
  {
    var p, s, size := Ask(d, t, room, cursor, limit), Beyond(d, t, room, cursor), SizeOf(d, limit);
    PageIsNearest(d, t, room, cursor, limit);
    SelectTakes(d, s, size);
    var last := p.next.value;
    assert last in p.rows && last in s && Past(d, cursor, last);
    forall k
      ensures k in Beyond(d, t, room, At(last)) <==> k in Rest(d, s, size)
    {
      RestIsTheOthers(d, s, size, k);
      if k in p.rows {
        assert k == last || Ahead(d, k, last) by {
          var i :| 0 <= i < |p.rows| && p.rows[i] == k;
        }
      }
    }
  }

  lemma LastPage(d: Direction, t: Table, room: RoomId, cursor: Cursor, limit: int)
    requires Usable(d, cursor)
    ensures var p, s := Ask(d, t, room, cursor, limit), Beyond(d, t, room, cursor);
      p.Page? && p.next.None? ==> p.rows == Select(d, s, |s|)
  {
    var s, size := Beyond(d, t, room, cursor), SizeOf(d, limit);
    PageIsNearest(d, t, room, cursor, limit);
    SelectTakes(d, s, size);
    SelectTakes(d, s, |s|);
    if |s| <= size { SelectPrefix(d, s, |s|, size); }
  }

  lemma PageAndRest(d: Direction, t: Table, room: RoomId, cursor: Cursor, limit: int)
    requires Usable(d, cursor)
    requires var p := Ask(d, t, room, cursor, limit); p.Page? && p.next.Some?
    ensures var p, s := Ask(d, t, room, cursor, limit), Beyond(d, t, room, cursor);
      var left := Beyond(d, t, room, At(p.next.value));
      |left| == |s| - SizeOf(d, limit) && Select(d, s, |s|) == p.rows + Select(d, left, |left|)
  {
    var s, size := Beyond(d, t, room, cursor), SizeOf(d, limit);
    PageIsNearest(d, t, room, cursor, limit);
    BeyondThePage(d, t, room, cursor, limit);
    RestSize(d, s, size);
    SelectInTwo(d, s, size, |s|);
  }

  lemma FollowOnePage(d: Direction, t: Table, tables: seq<Table>, room: RoomId, cursor: Cursor, limit: int)
    requires Usable(d, cursor) && tables != [] && tables[0] == t
    ensures var p, w := Ask(d, t, room, cursor, limit), Follow(d, tables, room, cursor, limit);
      && p.Page?
      && (p.next.None? ==> w == Walk(p.rows, 1, true))
      && (p.next.Some? ==>
          var rest := Follow(d, tables[1..], room, At(p.next.value), limit);
          w == Walk(p.rows + rest.rows, rest.pages + 1, rest.done))
  {
    PageIsNearest(d, t, room, cursor, limit);
  }

  lemma PagesByOne(d: Direction, t: Table, room: RoomId, cursor: Cursor, limit: int)
    requires Usable(d, cursor)
    ensures var p, n, size := Ask(d, t, room, cursor, limit), |Beyond(d, t, room, cursor)|, SizeOf(d, limit);
      && p.Page?
      && (p.next.None? ==> PagesFor(d, n, size) == 1)
      && (p.next.Some? ==> size <= n && PagesFor(d, n, size) == PagesFor(d, n - size, size) + 1)
  {
    PageIsNearest(d, t, room, cursor, limit);
    OnePageLess(d, |Beyond(d, t, room, cursor)|, SizeOf(d, limit));
  }

  /** On a table nobody writes to, the walk is the whole room beyond the cursor in order, and takes
      max(1, ceil(n / size)) requests backward and floor(n / size) + 1 forward. */
  lemma {:induction false} WalkOfFixedTable(d: Direction, t: Table, room: RoomId, cursor: Cursor, limit: int, m: nat)
    requires Usable(d, cursor)
    requires PagesFor(d, |Beyond(d, t, room, cursor)|, SizeOf(d, limit)) <= m
    ensures var w, s := Follow(d, seq(m, _ => t), room, cursor, limit), Beyond(d, t, room, cursor);
      w.done && w.pages == PagesFor(d, |s|, SizeOf(d, limit)) && w.rows == Select(d, s, |s|)
    decreases m
  {
    var s, tables := Beyond(d, t, room, cursor), seq(m, _ => t);
    var p := Ask(d, t, room, cursor, limit);
    PagesByOne(d, t, room, cursor, limit);
    FollowOnePage(d, t, tables, room, cursor, limit);
    if p.next.None? {
      LastPage(d, t, room, cursor, limit);
    } else {
      PageAndRest(d, t, room, cursor, limit);
      assert tables[1..] == seq(m - 1, _ => t);
      WalkOfFixedTable(d, t, room, At(p.next.value), limit, m - 1);
    }
  }
}
