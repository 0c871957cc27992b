/**
 The WebSocket hub: one loop over register, unregister and broadcast, a bounded send queue per client,
 and eviction of a client whose queue is full. A client is known by its place in `clients`; each
 connection makes a new one.
 */
module Hub {
  type RoomId = nat
  type Message = nat
  type ClientId = nat

  const QUEUE_SIZE: nat := 256
  const BROADCAST_SIZE: nat := 256

  datatype Frame = Text(message: Message) | PongText

  /** `closes` counts the calls of close on the send channel. */
  datatype Client = Client(room: RoomId, queue: seq<Frame>, closes: nat) {
    predicate Closed() { 0 < closes }
    predicate Full() { QUEUE_SIZE <= |queue| }
  }

  datatype Hub = Hub(rooms: map<RoomId, set<ClientId>>, clients: seq<Client>, panicked: bool)

  function MembersOf(h: Hub, room: RoomId): set<ClientId> { if room in h.rooms then h.rooms[room] else {} }

  predicate Registered(h: Hub, id: ClientId)
    requires id < |h.clients|
  {
    id in MembersOf(h, h.clients[id].room)
  }

  /** ---------- The cases of the loop ---------- */

  function Offered(c: Client, m: Message): Client {
    if c.Full() then c.(closes := c.closes + 1) else c.(queue := c.queue + [Text(m)])
  }

  function AfterRegister(h: Hub, room: RoomId): Hub {
    h.(rooms := h.rooms[room := MembersOf(h, room) + {|h.clients|}], clients := h.clients + [Client(room, [], 0)])
  }

  function AfterUnregister(h: Hub, id: ClientId): Hub
    requires id < |h.clients|
  {
    var c := h.clients[id];
    var left := MembersOf(h, c.room) - {id};
    if !Registered(h, id) then h else
    h.(rooms := if left == {} then h.rooms - {c.room} else h.rooms[c.room := left],
       clients := h.clients[id := c.(closes := c.closes + 1)],
       panicked := h.panicked || c.Closed())
  }

  function FullOnes(h: Hub, ids: set<ClientId>): set<ClientId> {
    set id | id in ids && id < |h.clients| && h.clients[id].Full()
  }

  ghost predicate SomeClosed(h: Hub, ids: set<ClientId>) {
    exists id :: id in ids && id < |h.clients| && h.clients[id].Closed()
  }

  function OfferedTo(h: Hub, ids: set<ClientId>, m: Message): seq<Client> {
    seq(|h.clients|, i requires 0 <= i < |h.clients| =>
      if i in ids then Offered(h.clients[i], m) else h.clients[i])
  }

  /** The message offered to `ids`, the full ones of them evicted. A room emptied by eviction stays in the
      map with no members; only unregister removes a room. */
  ghost function AfterOffers(h: Hub, room: RoomId, ids: set<ClientId>, m: Message): Hub {
    Hub(if room in h.rooms then h.rooms[room := h.rooms[room] - FullOnes(h, ids)] else h.rooms,
        OfferedTo(h, ids, m),
        h.panicked || SomeClosed(h, ids))
  }

  ghost function AfterBroadcast(h: Hub, room: RoomId, m: Message): Hub {
    AfterOffers(h, room, MembersOf(h, room), m)
  }

  ghost function AfterOffer(h: Hub, id: ClientId, m: Message): Hub
    requires id < |h.clients|
  {
    var c := h.clients[id];
    Hub(if c.Full() then h.rooms[c.room := MembersOf(h, c.room) - {id}] else h.rooms,
        h.clients[id := Offered(c, m)],
        h.panicked || c.Closed())
  }

  lemma OneMoreOffer(h: Hub, room: RoomId, ids: set<ClientId>, id: ClientId, m: Message)
    requires id < |h.clients| && h.clients[id].room == room && room in h.rooms && id !in ids
    ensures AfterOffer(AfterOffers(h, room, ids, m), id, m) == AfterOffers(h, room, ids + {id}, m)
  {
    var g, c := AfterOffers(h, room, ids, m), h.clients[id];
    assert g.clients[id] == c;
    assert FullOnes(h, ids + {id}) == FullOnes(h, ids) + if c.Full() then {id} else {};
    assert SomeClosed(h, ids + {id}) <==> SomeClosed(h, ids) || c.Closed();
    assert g.clients[id := Offered(c, m)] == OfferedTo(h, ids + {id}, m);
    var left := h.rooms[room] - FullOnes(h, ids);
    assert h.rooms[room] - FullOnes(h, ids + {id}) == if c.Full() then left - {id} else left;
    assert h.rooms[room := left][room := left - {id}] == h.rooms[room := left - {id}];
  }

  lemma NoOffersYet(h: Hub, room: RoomId, m: Message)
    ensures AfterOffers(h, room, {}, m) == h
  {
    assert FullOnes(h, {}) == {};
    assert OfferedTo(h, {}, m) == h.clients;
    assert room in h.rooms ==> h.rooms[room] - {} == h.rooms[room] && h.rooms[room := h.rooms[room]] == h.rooms;
  }

  /** The hub as an object. A panic is recorded, where the process would end. */
  class HubLoop {
    var rooms: map<RoomId, set<ClientId>>
    var clients: seq<Client>
    var panicked: bool

    ghost function Value(): Hub
      reads this
    {
      Hub(rooms, clients, panicked)
    }

    constructor ()
      ensures Value() == Hub(map[], [], false)
    {
      rooms, clients, panicked := map[], [], false;
    }

    /** A new connection and the register case. */
    method Register(room: RoomId) returns (id: ClientId)
      modifies this
      ensures id == |old(clients)|
      ensures Value() == AfterRegister(old(Value()), room)
    {
      id := |clients|;
      clients := clients + [Client(room, [], 0)];
      if room !in rooms {
        rooms := rooms[room := {}];
      }
      rooms := rooms[room := rooms[room] + {id}];
    }

    /** Go's close on a send channel: closing twice panics. */
    method Close(id: ClientId)
      requires id < |clients|
      modifies this`clients, this`panicked
      ensures clients == old(clients)[id := old(clients)[id].(closes := old(clients)[id].closes + 1)]
      ensures panicked == (old(panicked) || old(clients)[id].Closed())
    {
      if clients[id].closes > 0 {
        panicked := true;
      }
      clients := clients[id := clients[id].(closes := clients[id].closes + 1)];
    }

    method Unregister(id: ClientId)
      requires id < |clients|
      modifies this
      ensures Value() == AfterUnregister(old(Value()), id)
    {
      var room := clients[id].room;
      if room in rooms && id in rooms[room] {
        rooms := rooms[room := rooms[room] - {id}];
        Close(id);
        if rooms[room] == {} {
          rooms := rooms - {room};
        }
      }
    }

    /** The inner select: queue the message, or evict the client when its queue is full. */
    method Offer(id: ClientId, m: Message)
      requires id < |clients| && clients[id].room in rooms
      modifies this
      ensures Value() == AfterOffer(old(Value()), id, m)
    {
      var c := clients[id];
      if |c.queue| < QUEUE_SIZE {
        if c.closes > 0 {
          panicked := true;
        }
        clients := clients[id := c.(queue := c.queue + [Text(m)])];
      } else {
        rooms := rooms[c.room := rooms[c.room] - {id}];
        Close(id);
      }
    }

    /** The broadcast case, over the clients of the room in any order. */
    method Broadcast(room: RoomId, m: Message)
      requires forall id: ClientId {:trigger id in MembersOf(Value(), room)} ::
        id in MembersOf(Value(), room) ==> id < |clients| && clients[id].room == room
      modifies this
      ensures Value() == AfterBroadcast(old(Value()), room, m)
    {
      ghost var h := Value();
      var members := if room in rooms then rooms[room] else {};
      var todo := members;
      NoOffersYet(h, room, m);
      assert members - todo == {};
      while todo != {}
        invariant todo <= members
        invariant Value() == AfterOffers(h, room, members - todo, m)
      {
        var id :| id in todo;
        assert id in MembersOf(h, room);
        OneMoreOffer(h, room, members - todo, id, m);
        Offer(id, m);
        assert members - (todo - {id}) == (members - todo) + {id};
        todo := todo - {id};
      }
      assert members - todo == members;
    }
  }

  /** ---------- The hub with its surroundings ---------- */

  datatype Post = Post(room: RoomId, message: Message)

  /** `pending` is the broadcast channel and `handled` what the loop took off it. For each client, `joined`
      says how many broadcasts had been handled for its room when it joined, and `taken` is what the write
      pump took off its queue. `left` has the clients whose read pump has ended. */
  datatype System = System(
    hub: Hub, pending: seq<Post>, handled: seq<Post>, joined: seq<nat>, taken: seq<seq<Frame>>, left: set<ClientId>)

  /** `Leave` is the end of a read pump, which unregisters once and reads no further; `Take` is a write pump
      receiving, and `Ping` a read pump that meets a request for a pong. */
  datatype Step =
    | Join(room: RoomId)
    | Leave(id: ClientId)
    | Send(post: Post)
    | Deliver
    | Take(id: ClientId)
    | Ping(id: ClientId)

  function RoomLog(posts: seq<Post>, room: RoomId): seq<Message> {
    if posts == [] then [] else
    var last := posts[|posts| - 1];
    RoomLog(posts[..|posts| - 1], room) + if last.room == room then [last.message] else []
  }

  function Texts(frames: seq<Frame>): seq<Message> {
    if frames == [] then [] else
    var last := frames[|frames| - 1];
    Texts(frames[..|frames| - 1]) + if last.Text? then [last.message] else []
  }

  ghost predicate Enabled(x: System, step: Step) {
    && !x.hub.panicked
    && match step {
      case Join(_) => true
      case Leave(id) => id < |x.hub.clients| && id !in x.left
      case Send(_) => |x.pending| < BROADCAST_SIZE
      case Deliver => x.pending != []
      case Take(id) => id < |x.hub.clients| && id < |x.taken| && x.hub.clients[id].queue != []
      case Ping(id) => id < |x.hub.clients| && id !in x.left
    }
  }

  /** A pong is dropped when the queue is full; sending it on a closed channel panics. */
  function AfterPing(h: Hub, id: ClientId): Hub
    requires id < |h.clients|
  {
    var c := h.clients[id];
    if c.Closed() then h.(panicked := true)
    else if c.Full() then h
    else h.(clients := h.clients[id := c.(queue := c.queue + [PongText])])
  }

  ghost function Apply(x: System, step: Step): System
    requires Enabled(x, step)
  {
    match step
    case Join(room) =>
      x.(hub := AfterRegister(x.hub, room), joined := x.joined + [|RoomLog(x.handled, room)|], taken := x.taken + [[]])
    case Leave(id) => x.(hub := AfterUnregister(x.hub, id), left := x.left + {id})
    case Send(post) => x.(pending := x.pending + [post])
    case Deliver =>
      var post := x.pending[0];
      x.(hub := AfterBroadcast(x.hub, post.room, post.message), pending := x.pending[1..], handled := x.handled + [post])
    case Take(id) =>
      var c := x.hub.clients[id];
      x.(hub := x.hub.(clients := x.hub.clients[id := c.(queue := c.queue[1..])]),
         taken := x.taken[id := x.taken[id] + [c.queue[0]]])
    case Ping(id) => x.(hub := AfterPing(x.hub, id))
  }

  const START: System := System(Hub(map[], [], false), [], [], [], [], {})

  ghost predicate Leads(x: System, y: System, steps: seq<Step>)
    decreases |steps|
  {
    if steps == [] then x == y
    else Enabled(x, steps[0]) && Leads(Apply(x, steps[0]), y, steps[1..])
  }

  ghost predicate Reachable(x: System) { exists steps :: Leads(START, x, steps) }

  /** ---------- The invariant ---------- */

  /** What was ever put on the client's queue: what the pump took, then what still waits. */
  function Queued(x: System, id: ClientId): seq<Message>
    requires id < |x.hub.clients| && id < |x.taken|
  {
    Texts(x.taken[id] + x.hub.clients[id].queue)
  }

  /** `q` is a contiguous piece of `all` from place `start` on and, when `live`, up to the end. */
  ghost predicate Segment(all: seq<Message>, q: seq<Message>, start: nat, live: bool) {
    start + |q| <= |all| && q == all[start..start + |q|] && (live ==> start + |q| == |all|)
  }

  /** What was queued is a piece of the room's broadcasts that starts where the client joined and, while the
      channel is open, ends at the newest. */
  ghost predicate HasSegment(x: System, id: ClientId)
    requires id < |x.hub.clients| && id < |x.taken| && id < |x.joined|
  {
    var c := x.hub.clients[id];
    Segment(RoomLog(x.handled, c.room), Queued(x, id), x.joined[id], !c.Closed())
  }

  ghost predicate RoomsInv(h: Hub) {
    && (forall r: RoomId, id: ClientId {:trigger id in MembersOf(h, r)} ::
        id in MembersOf(h, r) ==> id < |h.clients| && h.clients[id].room == r)
    && (forall id :: 0 <= id < |h.clients| ==> (Registered(h, id) <==> !h.clients[id].Closed()))
    && (forall id :: 0 <= id < |h.clients| ==> h.clients[id].closes <= 1 && |h.clients[id].queue| <= QUEUE_SIZE)
  }

  ghost predicate Inv(x: System) {
    && |x.joined| == |x.taken| == |x.hub.clients|
    && (forall id :: id in x.left ==> id < |x.hub.clients| && x.hub.clients[id].Closed())
    && RoomsInv(x.hub)
    && (forall id :: 0 <= id < |x.hub.clients| ==> HasSegment(x, id))
  }

  lemma TextsAppend(a: seq<Frame>, f: Frame)
    ensures Texts(a + [f]) == Texts(a) + if f.Text? then [f.message] else []
  {
    assert (a + [f])[..|a|] == a;
  }

  lemma RoomLogAppend(posts: seq<Post>, p: Post, room: RoomId)
    ensures RoomLog(posts + [p], room) == RoomLog(posts, room) + if p.room == room then [p.message] else []
  {
    assert (posts + [p])[..|posts|] == posts;
  }

  lemma RegisterKeepsRooms(h: Hub, room: RoomId)
    requires RoomsInv(h)
    ensures RoomsInv(AfterRegister(h, room))
  {
    var g := AfterRegister(h, room);
    assert forall r :: MembersOf(g, r) == MembersOf(h, r) + if r == room then {|h.clients|} else {};
    forall id | 0 <= id < |h.clients|
      ensures Registered(g, id) <==> !g.clients[id].Closed()
    {
      assert Registered(h, id) <==> !h.clients[id].Closed();
    }
  }

  lemma UnregisterKeepsRooms(h: Hub, id: ClientId)
    requires RoomsInv(h) && id < |h.clients|
    ensures RoomsInv(AfterUnregister(h, id)) && AfterUnregister(h, id).panicked == h.panicked
  {
    var g := AfterUnregister(h, id);
    assert Registered(h, id) <==> !h.clients[id].Closed();
    assert forall r :: MembersOf(g, r) == MembersOf(h, r) - {id} by {
      assert forall r :: r != h.clients[id].room ==> id !in MembersOf(h, r);
    }
    forall i | 0 <= i < |g.clients|
      ensures Registered(g, i) <==> !g.clients[i].Closed()
    {
      assert Registered(h, i) <==> !h.clients[i].Closed();
    }
  }

  lemma BroadcastMembers(h: Hub, room: RoomId, m: Message, r: RoomId)
    ensures MembersOf(AfterBroadcast(h, room, m), r) ==
      MembersOf(h, r) - if r == room then FullOnes(h, MembersOf(h, r)) else {}
  {
  }

  /** A broadcast's room has open channels only, and one of them closes exactly if it leaves the room. */
  lemma BroadcastClient(h: Hub, room: RoomId, m: Message, i: ClientId)
    requires RoomsInv(h) && i < |h.clients|
    ensures var g := AfterBroadcast(h, room, m);
      && (i in MembersOf(h, room) ==> !h.clients[i].Closed())
      && (Registered(g, i) <==> !g.clients[i].Closed())
      && g.clients[i].closes <= 1 && |g.clients[i].queue| <= QUEUE_SIZE && g.clients[i].room == h.clients[i].room
  {
    BroadcastMembers(h, room, m, h.clients[i].room);
    assert Registered(h, i) <==> !h.clients[i].Closed();
  }

  lemma BroadcastKeepsRooms(h: Hub, room: RoomId, m: Message)
    requires RoomsInv(h)
    ensures RoomsInv(AfterBroadcast(h, room, m)) && AfterBroadcast(h, room, m).panicked == h.panicked
  {
    var g := AfterBroadcast(h, room, m);
    forall i | 0 <= i < |h.clients|
      ensures i in MembersOf(h, room) ==> !h.clients[i].Closed()
      ensures Registered(g, i) <==> !g.clients[i].Closed()
      ensures g.clients[i].closes <= 1 && |g.clients[i].queue| <= QUEUE_SIZE && g.clients[i].room == h.clients[i].room
    {
      BroadcastClient(h, room, m, i);
    }
    forall r, id | id in MembersOf(g, r)
      ensures id < |g.clients| && g.clients[id].room == r
    {
      BroadcastMembers(h, room, m, r);
      assert id in MembersOf(h, r);
    }
  }

  lemma QueuedAfterDeliver(x: System, id: ClientId)
    requires Enabled(x, Deliver) && id < |x.hub.clients| && id < |x.taken|
    ensures var post := x.pending[0];
      Queued(Apply(x, Deliver), id) == Queued(x, id) +
        if id in MembersOf(x.hub, post.room) && !x.hub.clients[id].Full() then [post.message] else []
  {
    var post, y, c := x.pending[0], Apply(x, Deliver), x.hub.clients[id];
    var f := Text(post.message);
    if id in MembersOf(x.hub, post.room) && !c.Full() {
      assert y.hub.clients[id] == c.(queue := c.queue + [f]);
      assert y.taken[id] + y.hub.clients[id].queue == x.taken[id] + c.queue + [f];
      TextsAppend(x.taken[id] + c.queue, f);
    } else {
      assert y.hub.clients[id].queue == c.queue;
    }
  }

  lemma SegmentGrows(all: seq<Message>, q: seq<Message>, start: nat, live: bool,
                      more: seq<Message>, got: seq<Message>, stays: bool)
    requires Segment(all, q, start, live)
    requires got == [] || (live && got == more)
    requires stays ==> live && got == more
    ensures Segment(all + more, q + got, start, stays)
  {
    assert q + [] == q;
  }

  lemma DeliverKeepsSegment(x: System, id: ClientId)
    requires Enabled(x, Deliver) && id < |x.hub.clients| == |x.taken| == |x.joined|
    requires RoomsInv(x.hub) && HasSegment(x, id)
    ensures HasSegment(Apply(x, Deliver), id)
  {
    var y, c, post := Apply(x, Deliver), x.hub.clients[id], x.pending[0];
    var more := if post.room == c.room then [post.message] else [];
    var got := if id in MembersOf(x.hub, post.room) && !c.Full() then [post.message] else [];
    RoomLogAppend(x.handled, post, c.room);
    QueuedAfterDeliver(x, id);
    assert Registered(x.hub, id) <==> !c.Closed();
    SegmentGrows(RoomLog(x.handled, c.room), Queued(x, id), x.joined[id], !c.Closed(), more, got, !y.hub.clients[id].Closed());
  }

  lemma StepKeepsInv(x: System, step: Step)
    requires Inv(x) && Enabled(x, step)
    ensures Inv(Apply(x, step))
  {
    var y := Apply(x, step);
    match step
    case Join(room) =>
      RegisterKeepsRooms(x.hub, room);
      assert forall i :: 0 <= i < |x.hub.clients| ==> HasSegment(x, i) && Queued(y, i) == Queued(x, i);
    case Leave(id) =>
      UnregisterKeepsRooms(x.hub, id);
      assert forall i :: 0 <= i < |x.hub.clients| ==> HasSegment(x, i) && Queued(y, i) == Queued(x, i);
    case Send(_) =>
      assert forall i :: 0 <= i < |x.hub.clients| ==> HasSegment(x, i) && Queued(y, i) == Queued(x, i);
    case Deliver =>
      BroadcastKeepsRooms(x.hub, x.pending[0].room, x.pending[0].message);
      forall i | 0 <= i < |x.hub.clients| ensures HasSegment(y, i) { DeliverKeepsSegment(x, i); }
    case Take(id) => TakeKeepsInv(x, id);
    case Ping(id) => PingKeepsInv(x, id);
  }

  lemma QueueChangeKeepsRooms(h: Hub, id: ClientId, queue: seq<Frame>)
    requires RoomsInv(h) && id < |h.clients| && |queue| <= QUEUE_SIZE
    ensures RoomsInv(h.(clients := h.clients[id := h.clients[id].(queue := queue)]))
  {
    var g := h.(clients := h.clients[id := h.clients[id].(queue := queue)]);
    assert forall r :: MembersOf(g, r) == MembersOf(h, r);
    assert forall i :: 0 <= i < |h.clients| ==> Registered(g, i) == Registered(h, i);
  }

  lemma TakeKeepsInv(x: System, id: ClientId)
    requires Inv(x) && Enabled(x, Take(id))
    ensures Inv(Apply(x, Take(id)))
  {
    var y, c := Apply(x, Take(id)), x.hub.clients[id];
    QueueChangeKeepsRooms(x.hub, id, c.queue[1..]);
    assert y.taken[id] + y.hub.clients[id].queue == x.taken[id] + c.queue;
    forall i | 0 <= i < |x.hub.clients| ensures HasSegment(y, i) {
      assert HasSegment(x, i) && Queued(y, i) == Queued(x, i);
    }
  }

  lemma PingKeepsInv(x: System, id: ClientId)
    requires Inv(x) && Enabled(x, Ping(id))
    ensures Inv(Apply(x, Ping(id)))
  {
    var y, c := Apply(x, Ping(id)), x.hub.clients[id];
    if !c.Closed() && !c.Full() {
      QueueChangeKeepsRooms(x.hub, id, c.queue + [PongText]);
      assert y.taken[id] + y.hub.clients[id].queue == x.taken[id] + c.queue + [PongText];
      TextsAppend(x.taken[id] + c.queue, PongText);
    } else {
      assert y.hub.clients == x.hub.clients && y.hub.rooms == x.hub.rooms;
      assert forall i :: 0 <= i < |x.hub.clients| ==> Registered(y.hub, i) == Registered(x.hub, i);
      assert forall r :: MembersOf(y.hub, r) == MembersOf(x.hub, r);
    }
    forall i | 0 <= i < |x.hub.clients| ensures HasSegment(y, i) {
      assert HasSegment(x, i) && Queued(y, i) == Queued(x, i);
    }
  }

  lemma {:induction false} RunKeepsInv(x: System, y: System, steps: seq<Step>)
    requires Inv(x) && Leads(x, y, steps)
    ensures Inv(y)
    decreases |steps|
  {
    if steps != [] {
      StepKeepsInv(x, steps[0]);
      RunKeepsInv(Apply(x, steps[0]), y, steps[1..]);
    }
  }

  lemma ReachableInv(x: System)
    requires Reachable(x)
    ensures Inv(x)
  {
    var steps :| Leads(START, x, steps);
    RunKeepsInv(START, x, steps);
  }

  /** ---------- What holds in every run ---------- */

  /** A send channel is closed at most once, and is open exactly while the client is in its room. */
  lemma OpenWhileRegistered(x: System, id: ClientId)
    requires Reachable(x) && id < |x.hub.clients|
    ensures x.hub.clients[id].closes == if Registered(x.hub, id) then 0 else 1
    ensures forall r :: id in MembersOf(x.hub, r) ==> r == x.hub.clients[id].room
  {
    ReachableInv(x);
  }

  /** No gap, no other room's message, no reordering, from the moment of joining. */
  lemma QueuedIsSegment(x: System, id: ClientId)
    requires Reachable(x) && id < |x.hub.clients|
    ensures |x.taken| == |x.joined| == |x.hub.clients|
    ensures var all := RoomLog(x.handled, x.hub.clients[id].room);
      && x.joined[id] <= |all|
      && Queued(x, id) <= all[x.joined[id]..]
      && (Registered(x.hub, id) ==> Queued(x, id) == all[x.joined[id]..])
  {
    ReachableInv(x);
    assert HasSegment(x, id);
  }

  /** The client was closed for its full queue, while its read pump goes on. */
  ghost predicate Evicted(x: System, id: ClientId) { id < |x.hub.clients| && !Registered(x.hub, id) && id !in x.left }

  /** The loop itself never closes a channel twice or sends on a closed one. The one thing that panics is
      a pong for an evicted client. */
  lemma PanicsExactlyOnLatePong(x: System, step: Step)
    requires Reachable(x) && Enabled(x, step)
    ensures Apply(x, step).hub.panicked <==> step.Ping? && Evicted(x, step.id)
  {
    ReachableInv(x);
    match step
    case Leave(id) => UnregisterKeepsRooms(x.hub, id);
    case Deliver => BroadcastKeepsRooms(x.hub, x.pending[0].room, x.pending[0].message);
    case Ping(id) => assert Registered(x.hub, id) <==> !x.hub.clients[id].Closed();
    case _ =>
  }

  lemma {:induction false} OneMoreStep(x: System, y: System, steps: seq<Step>, step: Step)
    requires Leads(x, y, steps) && Enabled(y, step)
    ensures Leads(x, Apply(y, step), steps + [step])
    decreases |steps|
  {
    if steps == [] {
      assert [step][1..] == [];
    } else {
      assert (steps + [step])[1..] == steps[1..] + [step];
      OneMoreStep(Apply(x, steps[0]), y, steps[1..], step);
    }
  }

  lemma ReachableThen(x: System, step: Step)
    requires Reachable(x) && Enabled(x, step)
    ensures Reachable(Apply(x, step))
  {
    var steps :| Leads(START, x, steps);
    OneMoreStep(START, x, steps, step);
  }

  /** One client, whose write pump takes nothing, after `k` broadcasts to its room. */
  function Filled(k: nat): System {
    System(Hub(map[0 := {0}], [Client(0, seq(k, _ => Text(0)), 0)], false),
           [], seq(k, _ => Post(0, 0)), [0], [[]], {})
  }

  /** One more broadcast that still fits. */
  lemma FillsByOne(k: nat)
    requires k < QUEUE_SIZE && Reachable(Filled(k))
    ensures Reachable(Filled(k + 1))
  {
    var x, y := Filled(k), Apply(Filled(k), Send(Post(0, 0)));
    ReachableThen(x, Send(Post(0, 0)));
    ReachableThen(y, Deliver);
    var z, h := Apply(y, Deliver), x.hub;
    assert FullOnes(h, {0}) == {} && {0} - {} == {0};
    assert z.hub.rooms == map[0 := {0}];
    assert z.hub.clients == [Client(0, seq(k, _ => Text(0)) + [Text(0)], 0)];
    assert seq(k, _ => Text(0)) + [Text(0)] == seq(k + 1, _ => Text(0));
    assert seq(k, _ => Post(0, 0)) + [Post(0, 0)] == seq(k + 1, _ => Post(0, 0));
    assert z == Filled(k + 1);
  }

  lemma FirstJoin()
    ensures Apply(START, Join(0)) == Filled(0)
  {
    var y: System, none: seq<Frame> := Apply(START, Join(0)), seq(0, _ => Text(0));
    assert none == [] && Filled(0).handled == [];
    assert MembersOf(START.hub, 0) + {0} == {0};
    assert y.hub.rooms == Filled(0).hub.rooms;
    assert y.hub.clients == [Client(0, [], 0)] == Filled(0).hub.clients;
    assert y.joined == [0] && y.taken == [[]];
  }

  lemma {:induction false} QueueFills(k: nat)
    requires k <= QUEUE_SIZE
    ensures Reachable(Filled(k))
  {
    if k == 0 {
      assert Leads(START, START, []);
      ReachableThen(START, Join(0));
      FirstJoin();
    } else {
      QueueFills(k - 1);
      FillsByOne(k - 1);
    }
  }

  /** It does happen: a client whose queue fills up is evicted by the next broadcast, and its next ping ends
      the process. */
  lemma EvictedClientPings()
    ensures exists x :: Reachable(x) && Evicted(x, 0) && Enabled(x, Ping(0)) && Apply(x, Ping(0)).hub.panicked
  {
    QueueFills(QUEUE_SIZE);
    var x, y := Filled(QUEUE_SIZE), Apply(Filled(QUEUE_SIZE), Send(Post(0, 0)));
    ReachableThen(x, Send(Post(0, 0)));
    ReachableThen(y, Deliver);
    var z := Apply(y, Deliver);
    assert FullOnes(x.hub, {0}) == {0} && x.hub.clients[0].Full();
    assert z.hub.clients[0].closes == 1 && !z.hub.panicked;
    assert Evicted(z, 0) && Enabled(z, Ping(0));
  }

  /** A step closes a channel only if it is that client leaving, or a broadcast of its room that finds its
      queue full. */
  lemma ClosedExactlyWhen(x: System, step: Step, id: ClientId)
    requires Enabled(x, step) && id < |x.hub.clients| && Registered(x.hub, id)
    ensures |Apply(x, step).hub.clients| >= |x.hub.clients|
    ensures !Registered(Apply(x, step).hub, id) <==>
      || step == Leave(id)
      || (step.Deliver? && x.pending[0].room == x.hub.clients[id].room && 256 <= |x.hub.clients[id].queue|)
  {
  }

  /** A ping of a client in its room puts one pong on its queue if fewer than 256 frames wait there, and otherwise
      changes nothing; nobody else's queue changes. */
  lemma PingAnswers(x: System, id: ClientId)
    requires Reachable(x) && Enabled(x, Ping(id)) && Registered(x.hub, id)
    ensures var y, c := Apply(x, Ping(id)), x.hub.clients[id];
      && y.hub.clients == (if |c.queue| < 256 then x.hub.clients[id := c.(queue := c.queue + [PongText])] else x.hub.clients)
      && y.hub.rooms == x.hub.rooms && y.taken == x.taken && y.handled == x.handled && y.pending == x.pending
  {
    ReachableInv(x);
    assert Registered(x.hub, id) <==> !x.hub.clients[id].Closed();
  }

  lemma TextsFrozen(x: System, step: Step, id: ClientId)
    requires Inv(x) && Enabled(x, step) && id < |x.hub.clients| && x.hub.clients[id].Closed()
    ensures id < |Apply(x, step).hub.clients| && id < |Apply(x, step).taken| && Apply(x, step).hub.clients[id].Closed()
    ensures Queued(Apply(x, step), id) == Queued(x, id)
  {
    var y := Apply(x, step);
    assert Registered(x.hub, id) <==> !x.hub.clients[id].Closed();
    if step == Take(id) {
      assert y.taken[id] + y.hub.clients[id].queue == x.taken[id] + x.hub.clients[id].queue;
    } else {
      assert y.taken[id] == x.taken[id] && y.hub.clients[id].queue == x.hub.clients[id].queue;
    }
  }

  /** Once closed, a channel stays closed and nothing is queued to it again, whatever else happens. */
  lemma {:induction false} ClosedForGood(x: System, y: System, steps: seq<Step>, id: ClientId)
    requires Inv(x) && Leads(x, y, steps) && id < |x.hub.clients| && x.hub.clients[id].Closed()
    ensures id < |y.hub.clients| && id < |y.taken| && y.hub.clients[id].Closed()
    ensures Queued(y, id) == Queued(x, id)
    decreases |steps|
  {
    if steps != [] {
      TextsFrozen(x, steps[0], id);
      StepKeepsInv(x, steps[0]);
      ClosedForGood(Apply(x, steps[0]), y, steps[1..], id);
    }
  }

  /** Broadcasts are handled in the order in which they were sent. */
  lemma {:induction false} HandledInOrder(x: System, y: System, steps: seq<Step>)
    requires Leads(x, y, steps)
    ensures y.handled + y.pending == x.handled + x.pending + Sent(steps)
    ensures x.handled <= y.handled
    decreases |steps|
  {
    if steps != [] {
      var z := Apply(x, steps[0]);
      HandledInOrder(z, y, steps[1..]);
      assert z.handled + z.pending == x.handled + x.pending + Sent([steps[0]]);
    }
  }

  function Sent(steps: seq<Step>): seq<Post> {
    if steps == [] then [] else (if steps[0].Send? then [steps[0].post] else []) + Sent(steps[1..])
  }
}
