/** Rooms, hosts and membership over whole runs of the server. */
module Lobby {
  import opened Basics

  datatype Room = Room(members: seq<nat>, playing: bool)

  // A TCP connection, by its thread: it has loaded the player counter and not stored it yet; it is in
  // the lobby; it has joined its one room; it is gone. It has the id that it loaded.
  datatype Conn = Loaded(id: nat) | InLobby(id: nat) | InRoom(id: nat, room: nat) | Closed(id: nat)

  // `joins` remembers, for each room, everybody who ever joined it, in order; `gone` everybody who has
  // been taken out of a room.
  datatype State = State(
    rooms: map<nat, Room>, nextRoom: nat, conns: map<nat, Conn>, nextPlayer: nat,
    joins: map<nat, seq<nat>>, gone: set<nat>)

  const START := State(map[], 0, map[], 1, map[], {})

  // What can happen: the two halves of taking an id, for which the server holds no lock; TCP requests;
  // the end of a TCP connection; a PLAYER_DISCONNECT datagram (for any id); the shell's kick and delete.
  datatype Event =
    | Load(c: nat)
    | Store(c: nat)
    | CreateRoom
    | Join(c: nat, room: nat)
    | StartGame(c: nat)
    | HangUp(c: nat)
    | UdpLeave(id: nat)
    | Kick(id: nat)
    | DeleteRoom(room: nat)

  function Drop(members: seq<nat>, id: nat): seq<nat> {
    if |members| == 0 then []
    else
      var rest, last := Drop(members[..|members| - 1], id), members[|members| - 1];
      if last == id then rest else rest + [last]
  }

  // The host is the first member; 0, which is nobody's id, if there is none.
  function Host(r: Room): nat {
    if |r.members| == 0 then 0 else r.members[0]
  }

  // The first room, in order of room ids, with this player; `end` if there is none.
  function FindRoom(rooms: map<nat, Room>, id: nat, r: nat, end: nat): (f: nat)
    requires r <= end
    ensures r <= f <= end
    ensures f < end ==> f in rooms && id in rooms[f].members
    ensures forall q :: r <= q < f && q in rooms ==> id !in rooms[q].members
    decreases end - r
  {
    if r == end then end
    else if r in rooms && id in rooms[r].members then r
    else FindRoom(rooms, id, r + 1, end)
  }

  // The room table after a successful join, after a start request, and after a player is taken out.

  predicate Open(rooms: map<nat, Room>, room: nat) {
    room in rooms && !rooms[room].playing
  }

  function Entered(rooms: map<nat, Room>, id: nat, room: nat): map<nat, Room>
    requires Open(rooms, room)
  {
    rooms[room := rooms[room].(members := rooms[room].members + [id])]
  }

  function Started(rooms: map<nat, Room>, id: nat, room: nat): map<nat, Room> {
    if room in rooms && id == Host(rooms[room]) then rooms[room := rooms[room].(playing := true)] else rooms
  }

  function Left(rooms: map<nat, Room>, id: nat, room: nat): map<nat, Room> {
    if room in rooms then rooms[room := rooms[room].(members := Drop(rooms[room].members, id))] else rooms
  }

  // The rooms below n with the sizes of their memberships.
  function Listing(rooms: map<nat, Room>, n: nat): (list: seq<(nat, nat)>)
    ensures |list| <= n
  {
    if n == 0 then []
    else if n - 1 in rooms then Listing(rooms, n - 1) + [(n - 1, |rooms[n - 1].members|)]
    else Listing(rooms, n - 1)
  }

  /** The list has every room below n once, in ascending order, with the size of its membership. */
  lemma {:induction false} ListingRule(rooms: map<nat, Room>, n: nat)
    ensures forall e :: e in Listing(rooms, n) <==> e.0 < n && e.0 in rooms && e.1 == |rooms[e.0].members|
    ensures forall i, j :: 0 <= i < j < |Listing(rooms, n)| ==> Listing(rooms, n)[i].0 < Listing(rooms, n)[j].0
  {
    if n > 0 {
      ListingRule(rooms, n - 1);
      var before := Listing(rooms, n - 1);
      assert forall i :: 0 <= i < |before| ==> before[i] in before;
    }
  }

  function RemoveFrom(s: State, id: nat, room: nat): State {
    s.(rooms := Left(s.rooms, id, room),
       gone := if room in s.rooms && id in s.rooms[room].members then s.gone + {id} else s.gone)
  }

  function RemoveWherever(s: State, id: nat): State {
    var room := FindRoom(s.rooms, id, 0, s.nextRoom);
    if room < s.nextRoom then RemoveFrom(s, id, room) else s
  }

  predicate Possible(s: State, e: Event) {
    match e
    case Load(c) => c !in s.conns
    case Store(c) => c in s.conns && s.conns[c].Loaded?
    case Join(c, _) => c in s.conns && s.conns[c].InLobby?
    case StartGame(c) => c in s.conns && s.conns[c].InRoom?
    case HangUp(c) => c in s.conns && (s.conns[c].InLobby? || s.conns[c].InRoom?)
    case _ => true
  }

  function Joined(s: State, c: nat, room: nat): State
    requires c in s.conns && Open(s.rooms, room)
  {
    var id := s.conns[c].id;
    s.(rooms := Entered(s.rooms, id, room), conns := s.conns[c := InRoom(id, room)],
       joins := s.joins[room := (if room in s.joins then s.joins[room] else []) + [id]])
  }

  function HungUp(s: State, c: nat): State
    requires c in s.conns
  {
    var s' := if s.conns[c].InRoom? then RemoveFrom(s, s.conns[c].id, s.conns[c].room) else s;
    s'.(conns := s'.conns[c := Closed(s.conns[c].id)])
  }

  function Next(s: State, e: Event): State
    requires Possible(s, e)
  {
    match e
    case Load(c) => s.(conns := s.conns[c := Loaded(s.nextPlayer)])
    case Store(c) => s.(conns := s.conns[c := InLobby(s.conns[c].id)], nextPlayer := s.conns[c].id + 1)
    case CreateRoom =>
      s.(rooms := s.rooms[s.nextRoom := Room([], false)], nextRoom := s.nextRoom + 1,
         joins := s.joins[s.nextRoom := []])
    case Join(c, room) => if Open(s.rooms, room) then Joined(s, c, room) else s
    case StartGame(c) => s.(rooms := Started(s.rooms, s.conns[c].id, s.conns[c].room))
    case HangUp(c) => HungUp(s, c)
    case UdpLeave(id) => RemoveWherever(s, id)
    case Kick(id) => RemoveWherever(s, id)
    case DeleteRoom(room) => s.(rooms := s.rooms - {room})
  }

  // Those of the joined who are still there, in order of joining.
  function Remaining(joined: seq<nat>, gone: set<nat>): seq<nat> {
    if |joined| == 0 then []
    else
      var rest, last := Remaining(joined[..|joined| - 1], gone), joined[|joined| - 1];
      if last in gone then rest else rest + [last]
  }

  // ---------- the books of the lobby ----------

  // An id is taken once: those in use are below the counter, and one that is being taken is the counter.
  ghost predicate Numbered(s: State) {
    && s.nextPlayer >= 1
    && (forall c :: c in s.conns ==> TakenBy(s.conns[c], s.nextPlayer))
    && UniqueIds(s)
  }

  predicate TakenBy(c: Conn, next: nat) {
    1 <= c.id <= next && (c.id == next <==> c.Loaded?)
  }

  ghost predicate UniqueIds(s: State) {
    forall c, d :: c in s.conns && d in s.conns && s.conns[c].id == s.conns[d].id ==> c == d
  }

  // A room's books: its members are the remaining of those who joined it.
  ghost predicate Booked(s: State, room: nat) {
    && room < s.nextRoom && room in s.joins
    && Distinct(s.joins[room])
    && (room in s.rooms ==> s.rooms[room].members == Remaining(s.joins[room], s.gone))
    && forall id :: id in s.joins[room] ==> id < s.nextPlayer
  }

  // A connection is in the books of the room it has joined and of no other; once it is closed, its
  // player is no member any more.
  ghost predicate Kept(s: State, c: nat)
    requires c in s.conns
  {
    forall q :: q in s.joins && s.conns[c].id in s.joins[q] ==>
      match s.conns[c]
      case Loaded(_) => false
      case InLobby(_) => false
      case InRoom(_, room) => q == room
      case Closed(id) => q in s.rooms ==> id in s.gone
  }

  // Nobody is in the books of two rooms; everybody gone is in the books of one.
  ghost predicate SingleBooks(s: State) {
    && (forall id, a, b :: a in s.joins && b in s.joins && id in s.joins[a] && id in s.joins[b] ==> a == b)
    && (forall id :: id in s.gone ==> InBooks(s, id))
  }

  ghost predicate InBooks(s: State, id: nat) {
    exists room :: room in s.joins && id in s.joins[room]
  }

  ghost predicate Orderly(s: State) {
    && Numbered(s)
    && (forall room :: room in s.rooms ==> room in s.joins)
    && (forall room :: room in s.joins ==> Booked(s, room))
    && (forall c :: c in s.conns ==> Kept(s, c))
    && SingleBooks(s)
  }

  // ---------- membership lists ----------

  lemma {:induction false} RemainingIn(joined: seq<nat>, gone: set<nat>)
    ensures forall id :: id in Remaining(joined, gone) <==> id in joined && id !in gone
  {
    if |joined| > 0 {
      RemainingIn(joined[..|joined| - 1], gone);
      assert joined == joined[..|joined| - 1] + [joined[|joined| - 1]];
    }
  }

  lemma RemainingNext(joined: seq<nat>, gone: set<nat>, id: nat)
    requires id !in gone
    ensures Remaining(joined + [id], gone) == Remaining(joined, gone) + [id]
  {
    assert (joined + [id])[..|joined|] == joined;
  }

  lemma {:induction false} DropIsGone(joined: seq<nat>, gone: set<nat>, id: nat)
    ensures Drop(Remaining(joined, gone), id) == Remaining(joined, gone + {id})
  {
    if |joined| > 0 {
      var init, last := joined[..|joined| - 1], joined[|joined| - 1];
      DropIsGone(init, gone, id);
      if last !in gone {
        var kept := Remaining(init, gone) + [last];
        assert kept[..|kept| - 1] == Remaining(init, gone);
      }
    }
  }

  lemma {:induction false} DropStranger(members: seq<nat>, id: nat)
    requires id !in members
    ensures Drop(members, id) == members
  {
    if |members| > 0 {
      assert members == members[..|members| - 1] + [members[|members| - 1]];
      DropStranger(members[..|members| - 1], id);
    }
  }

  lemma {:induction false} RemainingStranger(joined: seq<nat>, gone: set<nat>, id: nat)
    requires id !in joined
    ensures Remaining(joined, gone + {id}) == Remaining(joined, gone)
  {
    if |joined| > 0 {
      assert joined == joined[..|joined| - 1] + [joined[|joined| - 1]];
      RemainingStranger(joined[..|joined| - 1], gone, id);
    }
  }

  lemma {:induction false} RemainingOrdered(joined: seq<nat>, gone: set<nat>, i: nat)
    requires Distinct(joined) && i < |Remaining(joined, gone)|
    ensures exists a, b :: 0 <= a <= b < |joined| && joined[a] == Remaining(joined, gone)[0]
              && joined[b] == Remaining(joined, gone)[i]
  {
    var init, last := joined[..|joined| - 1], joined[|joined| - 1];
    var rest := Remaining(init, gone);
    if i < |rest| {
      RemainingOrdered(init, gone, i);
      var a, b :| 0 <= a <= b < |init| && init[a] == rest[0] && init[b] == rest[i];
      assert joined[a] == init[a] && joined[b] == init[b];
    } else {
      var b := |joined| - 1;
      if i == 0 {
        assert joined[b] == Remaining(joined, gone)[0];
      } else {
        RemainingIn(init, gone);
        assert rest[0] in init;
        var a :| 0 <= a < |init| && init[a] == rest[0];
        assert joined[a] == init[a];
      }
    }
  }

  // ---------- steps ----------

  lemma RemoveOrderly(s: State, id: nat, room: nat)
    requires Orderly(s)
    ensures Orderly(RemoveFrom(s, id, room))
  {
    hide Remaining, Drop, Distinct, Numbered;
    if room in s.rooms {
      assert Booked(s, room);
      RemainingIn(s.joins[room], s.gone);
      if id in s.rooms[room].members {
        RemoveMember(s, id, room);
      } else {
        DropStranger(s.rooms[room].members, id);
        assert RemoveFrom(s, id, room).rooms == s.rooms;
        assert RemoveFrom(s, id, room) == s;
      }
    }
  }

  lemma RemoveMember(s: State, id: nat, room: nat)
    requires Orderly(s) && room in s.rooms && id in s.rooms[room].members && id in s.joins[room]
    ensures Orderly(RemoveFrom(s, id, room))
  {
    hide Remaining, Drop, Distinct, Numbered;
    var s' := RemoveFrom(s, id, room);
    NumberedStays(s, s');
    forall q | q in s'.joins ensures Booked(s', q) { RemoveBooks(s, id, room, q); }
    forall c | c in s'.conns ensures Kept(s', c) { assert Kept(s, c); }
    forall x | x in s'.gone ensures InBooks(s', x) {
      if x != id { InBooksStays(s, s', x); }
    }
  }

  lemma RemoveBooks(s: State, id: nat, room: nat, q: nat)
    requires Orderly(s) && room in s.rooms && id in s.rooms[room].members && id in s.joins[room] && q in s.joins
    ensures Booked(RemoveFrom(s, id, room), q)
  {
    hide Remaining, Drop, Distinct, Numbered;
    assert Booked(s, q);
    if q == room {
      DropIsGone(s.joins[room], s.gone, id);
    } else {
      RemainingStranger(s.joins[q], s.gone, id);
    }
  }

  lemma NumberedStays(s: State, s': State)
    requires Numbered(s) && s'.conns == s.conns && s'.nextPlayer == s.nextPlayer
    ensures Numbered(s')
  {
  }

  lemma InBooksStays(s: State, s': State, id: nat)
    requires InBooks(s, id) && forall q :: q in s.joins ==> q in s'.joins && s.joins[q] <= s'.joins[q]
    ensures InBooks(s', id)
  {
    var room :| room in s.joins && id in s.joins[room];
    assert id in s'.joins[room];
  }

  lemma JoinNumbered(s: State, c: nat, room: nat)
    requires Numbered(s) && c in s.conns && s.conns[c].InLobby? && Open(s.rooms, room)
    ensures Numbered(Joined(s, c, room))
  {
  }

  // A player that joins has never joined before.
  lemma JoinerIsNew(s: State, c: nat)
    requires Orderly(s) && c in s.conns && s.conns[c].InLobby?
    ensures forall q :: q in s.joins ==> s.conns[c].id !in s.joins[q]
    ensures s.conns[c].id !in s.gone && s.conns[c].id < s.nextPlayer
  {
    hide Remaining, Booked;
    assert Kept(s, c);
  }

  lemma JoinBooks(s: State, c: nat, room: nat, q: nat)
    requires Orderly(s) && c in s.conns && s.conns[c].InLobby? && q in s.joins && Open(s.rooms, room)
    ensures Booked(Joined(s, c, room), q)
  {
    hide Remaining, Numbered;
    JoinerIsNew(s, c);
    assert Booked(s, q);
    if q == room { RemainingNext(s.joins[room], s.gone, s.conns[c].id); }
  }

  lemma JoinKept(s: State, c: nat, room: nat, d: nat)
    requires Orderly(s) && c in s.conns && s.conns[c].InLobby? && d in s.conns && Open(s.rooms, room)
    ensures Kept(Joined(s, c, room), d)
  {
    hide Remaining, Booked;
    JoinerIsNew(s, c);
    assert Kept(s, d);
  }

  lemma JoinOrderly(s: State, c: nat, room: nat)
    requires Orderly(s) && c in s.conns && s.conns[c].InLobby? && Open(s.rooms, room)
    ensures Orderly(Joined(s, c, room))
  {
    hide Remaining, Booked, Kept, Numbered;
    var s' := Joined(s, c, room);
    JoinNumbered(s, c, room);
    JoinerIsNew(s, c);
    forall q | q in s'.joins ensures Booked(s', q) { JoinBooks(s, c, room, q); }
    forall d | d in s'.conns ensures Kept(s', d) { JoinKept(s, c, room, d); }
    forall x | x in s'.gone ensures InBooks(s', x) { InBooksStays(s, s', x); }
  }

  lemma HangUpNumbered(s: State, c: nat, id: nat)
    requires Numbered(s) && c in s.conns && !s.conns[c].Loaded? && id == s.conns[c].id
    ensures Numbered(s.(conns := s.conns[c := Closed(id)]))
  {
  }

  // The player of a room's connection is no member of that room once it has been taken out.
  lemma RemovedIsGone(s: State, id: nat, room: nat)
    requires Orderly(s) && room in s.rooms && id in s.joins[room]
    ensures id in RemoveFrom(s, id, room).gone
  {
    hide Remaining, Numbered;
    assert Booked(s, room);
    RemainingIn(s.joins[room], s.gone);
  }

  lemma HangUpOrderly(s: State, c: nat)
    requires Orderly(s) && Possible(s, HangUp(c))
    ensures Orderly(HungUp(s, c))
  {
    hide Remaining, Numbered, Booked, RemoveFrom;
    var id := s.conns[c].id;
    var s1 := if s.conns[c].InRoom? then RemoveFrom(s, id, s.conns[c].room) else s;
    RemoveKeeps(s, id, if s.conns[c].InRoom? then s.conns[c].room else 0);
    if s.conns[c].InRoom? { RemoveOrderly(s, id, s.conns[c].room); }
    HangUpNumbered(s1, c, id);
    var s' := HungUp(s, c);
    forall q | q in s'.joins ensures Booked(s', q) { BookedStays(s1, s', q); }
    forall d | d in s'.conns ensures Kept(s', d) {
      assert Kept(s1, d) && Kept(s, c);
      if d == c && s.conns[c].InRoom? && s.conns[c].room in s.rooms && s.conns[c].room in s.joins
         && id in s.joins[s.conns[c].room] {
        RemovedIsGone(s, id, s.conns[c].room);
      }
    }
    forall x | x in s'.gone ensures InBooks(s', x) { InBooksStays(s1, s', x); }
  }

  lemma RemoveKeeps(s: State, id: nat, room: nat)
    ensures var s' := RemoveFrom(s, id, room);
      && s'.joins == s.joins && s'.conns == s.conns && s'.nextPlayer == s.nextPlayer
      && s'.nextRoom == s.nextRoom && s'.rooms.Keys == s.rooms.Keys
  {
  }

  lemma BookedStays(s: State, s': State, q: nat)
    requires q in s.joins && Booked(s, q) && q in s'.joins && s'.joins[q] == s.joins[q] && s'.gone == s.gone
    requires s'.nextRoom >= s.nextRoom && s'.nextPlayer >= s.nextPlayer
    requires q in s'.rooms ==> q in s.rooms && s'.rooms[q].members == s.rooms[q].members
    ensures Booked(s', q)
  {
    hide Remaining, Distinct;
  }

  // No connection is between its load and its store.
  ghost predicate Quiet(s: State) {
    forall c :: c in s.conns ==> !s.conns[c].Loaded?
  }

  lemma LoadNumbered(s: State, c: nat)
    requires Numbered(s) && Quiet(s) && c !in s.conns
    ensures Numbered(Next(s, Load(c)))
  {
  }

  lemma StoreNumbered(s: State, c: nat)
    requires Numbered(s) && Possible(s, Store(c))
    ensures Numbered(Next(s, Store(c))) && Next(s, Store(c)).nextPlayer == s.nextPlayer + 1
  {
  }

  // Steps that leave the books as they are.
  lemma SimpleOrderly(s: State, s': State)
    requires Orderly(s) && Numbered(s')
    requires s'.gone == s.gone && s'.nextRoom >= s.nextRoom && s'.nextPlayer >= s.nextPlayer
    requires forall q :: q in s.joins ==> q in s'.joins && s'.joins[q] == s.joins[q]
    requires forall q :: q in s'.joins && q !in s.joins ==> s'.joins[q] == [] && Booked(s', q)
    requires forall q :: q in s'.rooms ==> q in s'.joins
    requires forall q :: q in s'.rooms && q in s.joins ==> q in s.rooms && s'.rooms[q].members == s.rooms[q].members
    requires forall c :: c in s'.conns ==>
      && (c in s.conns ==>
            s'.conns[c] == s.conns[c] || (s.conns[c].Loaded? && s'.conns[c] == InLobby(s.conns[c].id)))
      && (c !in s.conns ==> s'.conns[c] == Loaded(s.nextPlayer))
    ensures Orderly(s')
  {
    hide Numbered, Remaining;
    forall q | q in s'.joins ensures Booked(s', q) {
      if q in s.joins { BookedStays(s, s', q); }
    }
    forall c | c in s'.conns ensures Kept(s', c) {
      if c in s.conns { assert Kept(s, c); }
    }
    forall x | x in s'.gone ensures InBooks(s', x) { InBooksStays(s, s', x); }
  }

  // Only a load can do harm, and only one that falls between another's load and store.
  lemma NextOrderly(s: State, e: Event)
    requires Orderly(s) && Possible(s, e) && (e.Load? ==> Quiet(s))
    ensures Orderly(Next(s, e))
  {
    hide Numbered, Booked, Kept, SingleBooks, HungUp, Joined, RemoveFrom;
    match e
    case Load(c) => LoadOrderly(s, c);
    case Store(c) => StoreOrderly(s, c);
    case CreateRoom => CreateOrderly(s);
    case Join(c, room) => if Open(s.rooms, room) { JoinOrderly(s, c, room); }
    case StartGame(c) => StartOrderly(s, c);
    case HangUp(c) => HangUpOrderly(s, c);
    case UdpLeave(id) => RemoveOrderly(s, id, FindRoom(s.rooms, id, 0, s.nextRoom));
    case Kick(id) => RemoveOrderly(s, id, FindRoom(s.rooms, id, 0, s.nextRoom));
    case DeleteRoom(room) => DeleteOrderly(s, room);
  }

  lemma LoadOrderly(s: State, c: nat)
    requires Orderly(s) && Quiet(s) && c !in s.conns
    ensures Orderly(Next(s, Load(c)))
  {
    hide Numbered, Booked, Kept, SingleBooks;
    LoadNumbered(s, c);
    SimpleOrderly(s, Next(s, Load(c)));
  }

  lemma StoreOrderly(s: State, c: nat)
    requires Orderly(s) && Possible(s, Store(c))
    ensures Orderly(Next(s, Store(c)))
  {
    hide Numbered, Booked, Kept, SingleBooks;
    StoreNumbered(s, c);
    SimpleOrderly(s, Next(s, Store(c)));
  }

  lemma CreateOrderly(s: State)
    requires Orderly(s)
    ensures Orderly(Next(s, CreateRoom))
  {
    hide Numbered, Kept, SingleBooks;
    var s' := Next(s, CreateRoom);
    NumberedStays(s, s');
    forall q | q in s.joins ensures q != s.nextRoom { assert Booked(s, q); }
    assert Booked(s', s.nextRoom);
    SimpleOrderly(s, s');
  }

  lemma StartOrderly(s: State, c: nat)
    requires Orderly(s) && Possible(s, StartGame(c))
    ensures Orderly(Next(s, StartGame(c)))
  {
    hide Numbered, Booked, Kept, SingleBooks;
    NumberedStays(s, Next(s, StartGame(c)));
    SimpleOrderly(s, Next(s, StartGame(c)));
  }

  lemma DeleteOrderly(s: State, room: nat)
    requires Orderly(s)
    ensures Orderly(Next(s, DeleteRoom(room)))
  {
    hide Numbered, Booked, Kept, SingleBooks;
    NumberedStays(s, Next(s, DeleteRoom(room)));
    SimpleOrderly(s, Next(s, DeleteRoom(room)));
  }

  // ---------- runs ----------

  ghost predicate Run(states: seq<State>, events: seq<Event>) {
    && |states| == |events| + 1
    && states[0] == START
    && forall i :: 0 <= i < |events| ==> Possible(states[i], events[i]) && states[i + 1] == Next(states[i], events[i])
  }

  // Up to the k-th event, no load falls between another thread's load and store.
  ghost predicate Serial(states: seq<State>, events: seq<Event>, k: nat)
    requires Run(states, events) && k <= |events|
  {
    forall i :: 0 <= i < k && events[i].Load? ==> Quiet(states[i])
  }

  lemma StartOrderlyToo()
    ensures Orderly(START)
  {
  }

  lemma {:induction false} RunOrderly(states: seq<State>, events: seq<Event>, k: nat)
    requires Run(states, events) && k <= |events| && Serial(states, events, k)
    ensures Orderly(states[k])
  {
    hide Orderly, Possible, Next;
    if k > 0 {
      RunOrderly(states, events, k - 1);
      NextOrderly(states[k - 1], events[k - 1]);
    } else {
      StartOrderlyToo();
    }
  }

  // A connection keeps its id.
  lemma IdsStay(s: State, e: Event, c: nat)
    requires Possible(s, e) && c in s.conns
    ensures c in Next(s, e).conns && Next(s, e).conns[c].id == s.conns[c].id
  {
  }

  lemma OverlapDuplicates(s: State, c: nat)
    requires Numbered(s) && !Quiet(s) && c !in s.conns
    ensures !UniqueIds(Next(s, Load(c)))
  {
    var d :| d in s.conns && s.conns[d].Loaded?;
    var s' := Next(s, Load(c));
    assert s'.conns[d].id == s'.conns[c].id == s.nextPlayer;
  }

  lemma DuplicatesStay(s: State, e: Event)
    requires Possible(s, e) && !UniqueIds(s)
    ensures !UniqueIds(Next(s, e))
  {
    hide Possible, Next;
    var c, d :| c in s.conns && d in s.conns && s.conns[c].id == s.conns[d].id && c != d;
    IdsStay(s, e, c);
    IdsStay(s, e, d);
  }

  /** All connections have different ids if and only if no load of the counter has fallen between another
      thread's load and store. */
  lemma {:induction false} IdsUniqueIff(states: seq<State>, events: seq<Event>, k: nat)
    requires Run(states, events) && k <= |events|
    ensures UniqueIds(states[k]) <==> Serial(states, events, k)
  {
    hide Possible, Next, UniqueIds, Orderly, Quiet;
    if k > 0 {
      var s, e := states[k - 1], events[k - 1];
      IdsUniqueIff(states, events, k - 1);
      if !UniqueIds(s) {
        DuplicatesStay(s, e);
      } else if e.Load? && !Quiet(s) {
        RunOrderly(states, events, k - 1);
        OrderlyNumbered(s);
        LoadPossible(s, e);
        OverlapDuplicates(s, e.c);
      } else {
        RunOrderly(states, events, k);
        OrderlyNumbered(states[k]);
      }
    } else {
      StartOrderlyToo();
      OrderlyNumbered(START);
    }
  }

  lemma LoadPossible(s: State, e: Event)
    requires Possible(s, e) && e.Load?
    ensures e.c !in s.conns
  {
  }

  lemma OrderlyNumbered(s: State)
    requires Orderly(s)
    ensures Numbered(s) && UniqueIds(s)
  {
  }

  // ---------- what a shared id can lead to ----------

  // A player is a member of two rooms.
  ghost predicate Split(s: State) {
    exists id, a, b :: a != b && MemberOf(s, id, a) && MemberOf(s, id, b)
  }

  predicate MemberOf(s: State, id: nat, room: nat) {
    room in s.rooms && id in s.rooms[room].members
  }

  // A connection with this id can still join a room.
  predicate MayJoin(s: State, c: nat, id: nat) {
    c in s.conns && (s.conns[c].Loaded? || s.conns[c].InLobby?) && s.conns[c].id == id
  }

  // Two that can still join share an id, or one that can has the id of a member.
  ghost predicate Twins(s: State) {
    exists c, d, id :: c != d && MayJoin(s, c, id) && MayJoin(s, d, id)
  }

  ghost predicate Impostor(s: State) {
    exists c, id, room :: MayJoin(s, c, id) && MemberOf(s, id, room)
  }

  // A run from here on in which nobody connects.
  ghost predicate Continues(s: State, states: seq<State>, events: seq<Event>) {
    && |states| == |events| + 1
    && states[0] == s
    && forall i :: 0 <= i < |events| ==>
         !events[i].Load? && Possible(states[i], events[i]) && states[i + 1] == Next(states[i], events[i])
  }

  ghost predicate CanSplit(s: State) {
    exists states, events :: Continues(s, states, events) && Split(states[|events|])
  }

  lemma SplitAlready(s: State)
    requires Split(s)
    ensures CanSplit(s)
  {
    var states: seq<State>, events: seq<Event> := [s], [];
    assert Continues(s, states, events) && Split(states[|events|]);
  }

  lemma SplitLater(s: State, e: Event)
    requires !e.Load? && Possible(s, e) && CanSplit(Next(s, e))
    ensures CanSplit(s)
  {
    hide Next, Possible, Split;
    var states, events :| Continues(Next(s, e), states, events) && Split(states[|events|]);
    var states', events' := [s] + states, [e] + events;
    forall i | 0 <= i < |events'|
      ensures !events'[i].Load? && Possible(states'[i], events'[i]) && states'[i + 1] == Next(states'[i], events'[i])
    {
      if i > 0 { assert events'[i] == events[i - 1] && states'[i] == states[i - 1]; }
    }
    assert Continues(s, states', events') && Split(states'[|events'|]);
  }

  // A connection in the lobby joins a new room.
  lemma JoinsNewRoom(s: State, c: nat) returns (s2: State)
    requires Counted(s) && c in s.conns && s.conns[c].InLobby?
    ensures Counted(s2) && MemberOf(s2, s.conns[c].id, s.nextRoom)
    ensures forall id, room :: MemberOf(s, id, room) ==> MemberOf(s2, id, room) && room != s.nextRoom
    ensures forall d, id :: MayJoin(s, d, id) && d != c ==> MayJoin(s2, d, id)
    ensures CanSplit(s2) ==> CanSplit(s)
  {
    hide Split, Drop, Continues;
    var id, s1 := s.conns[c].id, Next(s, CreateRoom);
    assert s1.rooms[s.nextRoom] == Room([], false);
    s2 := Next(s1, Join(c, s.nextRoom));
    assert s2.rooms == s1.rooms[s.nextRoom := Room([] + [id], false)];
    assert id in [] + [id];
    if CanSplit(s2) {
      SplitLater(s1, Join(c, s.nextRoom));
      SplitLater(s, CreateRoom);
    }
  }

  lemma MemberJoins(s: State, c: nat, room: nat)
    requires Counted(s) && c in s.conns && s.conns[c].InLobby? && MemberOf(s, s.conns[c].id, room)
    ensures CanSplit(s)
  {
    hide Continues;
    var s2 := JoinsNewRoom(s, c);
    assert MemberOf(s2, s.conns[c].id, room) && MemberOf(s2, s.conns[c].id, s.nextRoom);
    SplitAlready(s2);
  }

  // A connection that has loaded its id can store it and is then in the lobby.
  lemma Stores(s: State, c: nat) returns (s': State)
    requires Counted(s) && c in s.conns && s.conns[c].Loaded?
    ensures Counted(s') && s'.rooms == s.rooms && s'.conns == s.conns[c := InLobby(s.conns[c].id)]
    ensures CanSplit(s') ==> CanSplit(s)
  {
    hide Split, Continues;
    s' := Next(s, Store(c));
    if CanSplit(s') { SplitLater(s, Store(c)); }
  }

  lemma ImpostorSplits(s: State, c: nat, id: nat, room: nat)
    requires Counted(s) && MayJoin(s, c, id) && MemberOf(s, id, room)
    ensures CanSplit(s)
  {
    hide CanSplit;
    if s.conns[c].Loaded? {
      var s' := Stores(s, c);
      MemberJoins(s', c, room);
    } else {
      MemberJoins(s, c, room);
    }
  }

  lemma TwinSplits(s: State, c: nat, d: nat, id: nat)
    requires Counted(s) && MayJoin(s, c, id) && s.conns[c].InLobby? && MayJoin(s, d, id) && c != d
    ensures CanSplit(s)
  {
    hide CanSplit;
    var s2 := JoinsNewRoom(s, c);
    ImpostorSplits(s2, d, id, s.nextRoom);
  }

  lemma TwinsSplit(s: State, c: nat, d: nat, id: nat)
    requires Counted(s) && MayJoin(s, c, id) && MayJoin(s, d, id) && c != d
    ensures CanSplit(s)
  {
    hide CanSplit;
    if s.conns[c].Loaded? {
      var s' := Stores(s, c);
      TwinSplits(s', c, d, id);
    } else {
      TwinSplits(s, c, d, id);
    }
  }

  // Nobody can be split: no id is in two places, a place being a room or a connection that can join.
  ghost predicate Whole(s: State) {
    !Split(s) && !Twins(s) && !Impostor(s)
  }

  // Members and those who can join only become fewer.
  lemma FewerWhole(s: State, s': State)
    requires Whole(s)
    requires forall id, room :: MemberOf(s', id, room) ==> MemberOf(s, id, room)
    requires forall c, id :: MayJoin(s', c, id) ==> MayJoin(s, c, id)
    ensures Whole(s')
  {
    hide MemberOf, MayJoin;
  }

  // A join takes an id from one place to another.
  lemma JoinWhole(s: State, c: nat, room: nat)
    requires Whole(s) && c in s.conns && s.conns[c].InLobby? && Open(s.rooms, room)
    ensures Whole(Joined(s, c, room))
  {
    var s', id := Joined(s, c, room), s.conns[c].id;
    assert MayJoin(s, c, id);
    forall x, q ensures MemberOf(s', x, q) <==> MemberOf(s, x, q) || (x == id && q == room) {}
    forall d, x | MayJoin(s', d, x) ensures MayJoin(s, d, x) && x != id {
      assert d != c && MayJoin(s, d, x);
    }
    forall q ensures !MemberOf(s, id, q) {}
    JoinedWhole(s, s', id, room);
  }

  lemma JoinedWhole(s: State, s': State, id: nat, room: nat)
    requires Whole(s)
    requires forall x, q :: MemberOf(s', x, q) <==> MemberOf(s, x, q) || (x == id && q == room)
    requires forall d, x :: MayJoin(s', d, x) ==> MayJoin(s, d, x) && x != id
    requires forall q :: !MemberOf(s, id, q)
    ensures Whole(s')
  {
    hide MemberOf, MayJoin;
  }

  lemma LeftFewer(rooms: map<nat, Room>, id: nat, q: nat, room: nat)
    requires room in Left(rooms, id, q)
    ensures room in rooms && Within(Left(rooms, id, q)[room].members, rooms[room].members)
  {
    hide Drop;
    DropWithin(rooms[room].members, id);
  }

  lemma LeaveWhole(s: State, s': State, id: nat, q: nat)
    requires Whole(s) && s'.rooms == Left(s.rooms, id, q)
    requires forall c, id :: MayJoin(s', c, id) ==> MayJoin(s, c, id)
    ensures Whole(s')
  {
    hide Left, Whole;
    forall x, room | MemberOf(s', x, room) ensures MemberOf(s, x, room) { LeftFewer(s.rooms, id, q, room); }
    FewerWhole(s, s');
  }

  lemma NextWhole(s: State, e: Event)
    requires Whole(s) && Possible(s, e) && !e.Load?
    ensures Whole(Next(s, e))
  {
    hide Whole, Left, Joined, Drop;
    var s' := Next(s, e);
    match e
    case Join(c, room) => if Open(s.rooms, room) { JoinWhole(s, c, room); }
    case HangUp(c) =>
      if s.conns[c].InRoom? {
        LeaveWhole(s, s', s.conns[c].id, s.conns[c].room);
      } else {
        FewerWhole(s, s');
      }
    case UdpLeave(id) => WhereverWhole(s, id);
    case Kick(id) => WhereverWhole(s, id);
    case _ => FewerWhole(s, s');
  }

  lemma WhereverWhole(s: State, id: nat)
    requires Whole(s)
    ensures Whole(RemoveWherever(s, id))
  {
    hide Whole, Left;
    var room := FindRoom(s.rooms, id, 0, s.nextRoom);
    if room < s.nextRoom { LeaveWhole(s, RemoveWherever(s, id), id, room); }
  }

  lemma {:induction false} AlwaysWhole(s: State, states: seq<State>, events: seq<Event>, k: nat)
    requires Whole(s) && Continues(s, states, events) && k <= |events|
    ensures Whole(states[k])
  {
    hide Whole, Next, Possible;
    if k > 0 {
      AlwaysWhole(s, states, events, k - 1);
      NextWhole(states[k - 1], events[k - 1]);
    }
  }

  /** Without any new connection, a player can come to be in two rooms if and only if it is already, or two
      connections that can still join share an id, or one that can has the id of a member of a room. */
  lemma SplitIff(states: seq<State>, events: seq<Event>, k: nat)
    requires Run(states, events) && k <= |events|
    ensures CanSplit(states[k]) <==> Split(states[k]) || Twins(states[k]) || Impostor(states[k])
  {
    hide Next, Possible;
    RunCounted(states, events, k);
    SplitIffHere(states[k]);
  }

  lemma SplitIffHere(s: State)
    requires Counted(s)
    ensures CanSplit(s) <==> Split(s) || Twins(s) || Impostor(s)
  {
    hide Next, Possible, MayJoin, MemberOf, Counted;
    if Split(s) {
      SplitAlready(s);
    } else if Twins(s) {
      var c, d, id :| c != d && MayJoin(s, c, id) && MayJoin(s, d, id);
      TwinsSplit(s, c, d, id);
    } else if Impostor(s) {
      var c, id, room :| MayJoin(s, c, id) && MemberOf(s, id, room);
      ImpostorSplits(s, c, id, room);
    } else if CanSplit(s) {
      var states, events :| Continues(s, states, events) && Split(states[|events|]);
      AlwaysWhole(s, states, events, |events|);
    }
  }

  // Load(0), Load(1), Store(0), Store(1), and each joins a room of its own.
  function Raced(): (s: State)
    ensures s.rooms == map[0 := Room([1], false), 1 := Room([1], false)] && s.nextRoom == 2
  {
    var s1 := Next(Next(Next(Next(START, Load(0)), Load(1)), Store(0)), Store(1));
    assert s1.conns == map[0 := InLobby(1), 1 := InLobby(1)];
    var s2 := Next(Next(s1, CreateRoom), CreateRoom);
    assert s2.rooms == map[0 := Room([], false), 1 := Room([], false)];
    assert [] + [1] == [1];
    Next(Next(s2, Join(0, 0)), Join(1, 1))
  }

  /** The shortest race: two connections at once, one id, two rooms, and the datagrams of both go to the
      first of these. */
  lemma RaceInTwoRooms()
    ensures MemberOf(Raced(), 1, 0) && MemberOf(Raced(), 1, 1) && Split(Raced())
    ensures FindRoom(Raced().rooms, 1, 0, Raced().nextRoom) == 0
  {
    assert MemberOf(Raced(), 1, 0) && MemberOf(Raced(), 1, 1);
  }

  /** As long as ids are unique, a player is in every reachable state a member of at most one room, and the
      room a datagram of that player is routed to is that one. */
  lemma OneRoomEach(states: seq<State>, events: seq<Event>, k: nat, id: nat, room: nat)
    requires Run(states, events) && k <= |events| && Serial(states, events, k)
    requires room in states[k].rooms && id in states[k].rooms[room].members
    ensures FindRoom(states[k].rooms, id, 0, states[k].nextRoom) == room
    ensures forall q :: q in states[k].rooms && id in states[k].rooms[q].members ==> q == room
  {
    RunOrderly(states, events, k);
    MemberOnce(states[k], id, room);
  }

  lemma MemberOnce(s: State, id: nat, room: nat)
    requires Orderly(s) && room in s.rooms && id in s.rooms[room].members
    ensures FindRoom(s.rooms, id, 0, s.nextRoom) == room
    ensures forall q :: q in s.rooms && id in s.rooms[q].members ==> q == room
  {
    hide Remaining, Numbered, Kept;
    forall q | q in s.rooms && id in s.rooms[q].members ensures q == room {
      assert Booked(s, q) && Booked(s, room);
      RemainingIn(s.joins[q], s.gone);
      RemainingIn(s.joins[room], s.gone);
    }
    assert Booked(s, room);
  }

  /** As long as ids are unique, the host of a room is the earliest-joined of its remaining members. */
  lemma HostJoinedFirst(states: seq<State>, events: seq<Event>, k: nat, room: nat, i: nat)
    requires Run(states, events) && k <= |events| && Serial(states, events, k)
    requires room in states[k].rooms && i < |states[k].rooms[room].members|
    ensures room in states[k].joins
    ensures exists a, b :: 0 <= a <= b < |states[k].joins[room]|
              && states[k].joins[room][a] == Host(states[k].rooms[room])
              && states[k].joins[room][b] == states[k].rooms[room].members[i]
    ensures Distinct(states[k].joins[room])
  {
    hide Possible, Next, Numbered, Kept, SingleBooks;
    RunOrderly(states, events, k);
    assert Booked(states[k], room);
    RemainingOrdered(states[k].joins[room], states[k].gone, i);
  }

  // What holds even if ids are taken twice.
  predicate Counted(s: State) {
    && s.nextPlayer >= 1
    && (forall c :: c in s.conns ==> s.conns[c].id >= 1)
    && (forall room :: room in s.rooms ==> room < s.nextRoom)
  }

  lemma NextCounted(s: State, e: Event)
    requires Counted(s) && Possible(s, e)
    ensures Counted(Next(s, e)) && s.nextRoom <= Next(s, e).nextRoom
  {
    hide Drop;
  }

  lemma {:induction false} RunCounted(states: seq<State>, events: seq<Event>, k: nat)
    requires Run(states, events) && k <= |events|
    ensures Counted(states[k])
  {
    hide Possible, Next, Counted;
    if k > 0 {
      RunCounted(states, events, k - 1);
      NextCounted(states[k - 1], events[k - 1]);
    } else {
      StartCounted();
    }
  }

  lemma StartCounted()
    ensures Counted(START)
  {
  }

  /** In every run, a room starts playing only by a start request from a connection that has the id of its
      host at that moment. */
  lemma OnlyHostStarts(states: seq<State>, events: seq<Event>, k: nat, room: nat)
    requires Run(states, events) && k < |events|
    requires room in states[k].rooms && !states[k].rooms[room].playing
    requires room in states[k + 1].rooms && states[k + 1].rooms[room].playing
    ensures events[k].StartGame? && |states[k].rooms[room].members| > 0
    ensures events[k].c in states[k].conns
         && states[k].conns[events[k].c].id == states[k].rooms[room].members[0]
  {
    RunCounted(states, events, k);
    StartsStep(states[k], events[k], room);
  }

  /** And it does start then: when the connection of the host of its room asks. */
  lemma HostStarts(states: seq<State>, events: seq<Event>, k: nat)
    requires Run(states, events) && k < |events| && events[k].StartGame?
    ensures events[k].c in states[k].conns && states[k].conns[events[k].c].InRoom?
    ensures var conn := states[k].conns[events[k].c];
      conn.room in states[k].rooms && |states[k].rooms[conn.room].members| > 0
      && states[k].rooms[conn.room].members[0] == conn.id ==>
        conn.room in states[k + 1].rooms && states[k + 1].rooms[conn.room].playing
  {
  }

  lemma {:induction false} DropIs(members: seq<nat>, id: nat)
    ensures forall x :: x in Drop(members, id) <==> x in members && x != id
  {
    if |members| > 0 {
      var init, last := members[..|members| - 1], members[|members| - 1];
      DropIs(init, id);
      assert members == init + [last];
    }
  }

  lemma RemovedWherever(s: State, id: nat, room: nat)
    requires Orderly(s) && room in s.rooms
    ensures room in RemoveWherever(s, id).rooms
    ensures forall x :: x in RemoveWherever(s, id).rooms[room].members <==> x in s.rooms[room].members && x != id
  {
    hide Drop, Orderly;
    var r := FindRoom(s.rooms, id, 0, s.nextRoom);
    DropIs(s.rooms[room].members, id);
    RoomBelow(s, room);
    if id in s.rooms[room].members { MemberOnce(s, id, room); }
  }

  lemma RoomBelow(s: State, room: nat)
    requires Orderly(s) && room in s.rooms
    ensures room < s.nextRoom
  {
    hide Distinct, Remaining;
    assert Booked(s, room);
  }

  /** As long as ids are unique, a disconnect datagram or a kick takes its player out of whatever room it is
      in, and nobody else out of any room. */
  lemma LeaveTakesOut(states: seq<State>, events: seq<Event>, k: nat, room: nat)
    requires Run(states, events) && k < |events| && Serial(states, events, k)
    requires (events[k].UdpLeave? || events[k].Kick?) && room in states[k].rooms
    ensures room in states[k + 1].rooms
    ensures forall x :: x in states[k + 1].rooms[room].members <==>
              x in states[k].rooms[room].members && x != events[k].id
  {
    hide Orderly, RemoveWherever;
    RunOrderly(states, events, k);
    RemovedWherever(states[k], events[k].id, room);
  }

  /** In every run a join makes the player the last member of its room exactly if the room is there and not
      playing, and changes no other room. */
  lemma JoinTakesIn(states: seq<State>, events: seq<Event>, k: nat)
    requires Run(states, events) && k < |events| && events[k].Join?
    ensures events[k].c in states[k].conns
    ensures var room, id := events[k].room, states[k].conns[events[k].c].id;
      if room in states[k].rooms && !states[k].rooms[room].playing
      then && states[k + 1].rooms.Keys == states[k].rooms.Keys
           && states[k + 1].rooms[room].members == states[k].rooms[room].members + [id]
           && !states[k + 1].rooms[room].playing
           && forall q :: q in states[k].rooms && q != room ==> states[k + 1].rooms[q] == states[k].rooms[q]
      else states[k + 1] == states[k]
  {
  }

  lemma StartsStep(s: State, e: Event, room: nat)
    requires Counted(s) && Possible(s, e)
    requires room in s.rooms && !s.rooms[room].playing && room in Next(s, e).rooms && Next(s, e).rooms[room].playing
    ensures e.StartGame? && |s.rooms[room].members| > 0
    ensures e.c in s.conns && s.conns[e.c].id == s.rooms[room].members[0]
  {
    hide Drop;
  }

  ghost predicate Within(a: seq<nat>, b: seq<nat>) {
    forall id :: id in a ==> id in b
  }

  lemma {:induction false} DropWithin(members: seq<nat>, id: nat)
    ensures Within(Drop(members, id), members)
  {
    if |members| > 0 {
      DropWithin(members[..|members| - 1], id);
      assert members == members[..|members| - 1] + [members[|members| - 1]];
    }
  }

  lemma LeftWithin(rooms: map<nat, Room>, id: nat, q: nat, room: nat)
    requires room in rooms
    ensures room in Left(rooms, id, q) && Left(rooms, id, q)[room].playing == rooms[room].playing
    ensures Within(Left(rooms, id, q)[room].members, rooms[room].members)
  {
    DropWithin(rooms[room].members, id);
  }

  lemma PlayingStep(s: State, e: Event, room: nat)
    requires Possible(s, e) && room < s.nextRoom
    requires room in s.rooms && s.rooms[room].playing && room in Next(s, e).rooms
    ensures Next(s, e).rooms[room].playing
    ensures Within(Next(s, e).rooms[room].members, s.rooms[room].members)
  {
    hide Drop, Left;
    match e
    case HangUp(c) => if s.conns[c].InRoom? { LeftWithin(s.rooms, s.conns[c].id, s.conns[c].room, room); }
    case UdpLeave(id) => LeftWithin(s.rooms, id, FindRoom(s.rooms, id, 0, s.nextRoom), room);
    case Kick(id) => LeftWithin(s.rooms, id, FindRoom(s.rooms, id, 0, s.nextRoom), room);
    case _ =>
  }

  // A room that exists later existed before, unless it was created in between.
  lemma RoomsStay(s: State, e: Event, room: nat)
    requires Possible(s, e) && room in Next(s, e).rooms && room < s.nextRoom
    ensures room in s.rooms
  {
    hide Drop;
  }

  lemma {:induction false} NextRoomGrows(states: seq<State>, events: seq<Event>, i: nat, j: nat)
    requires Run(states, events) && i <= j <= |events|
    ensures states[i].nextRoom <= states[j].nextRoom
  {
    hide Possible, Next, Counted;
    if i < j {
      NextRoomGrows(states, events, i, j - 1);
      RunCounted(states, events, j - 1);
      NextCounted(states[j - 1], events[j - 1]);
    }
  }

  /** In every run, a playing room never goes back to its lobby, and its membership only shrinks. */
  lemma {:induction false} PlayingForGood(states: seq<State>, events: seq<Event>, i: nat, j: nat, room: nat)
    requires Run(states, events) && i <= j <= |events|
    requires room in states[i].rooms && states[i].rooms[room].playing && room in states[j].rooms
    ensures states[j].rooms[room].playing
    ensures Within(states[j].rooms[room].members, states[i].rooms[room].members)
  {
    hide Next, Possible;
    if i < j {
      RunCounted(states, events, i);
      NextRoomGrows(states, events, i, j - 1);
      RoomsStay(states[j - 1], events[j - 1], room);
      PlayingForGood(states, events, i, j - 1, room);
      PlayingStep(states[j - 1], events[j - 1], room);
    }
  }
}
