/** The server's end of a TCP connection before its player has joined a room. */
module LobbyServer {
  import opened Basics
  import opened Bytes
  import opened TcpRequests
  import opened ServerManagers
  import Lobby

  // The room table and the room counter after a connection's requests, what has been answered, and the
  // room joined, if any; joining ends this part of the connection, and `rest` is left for the next.
  datatype Served = Served(
    rooms: map<nat, Lobby.Room>, next: nat, replies: seq<byte>, joined: Option<nat>, rest: seq<byte>)

  const MAX_PLAYERS: i32 := 4

  // static_cast<int>
  function Int(n: nat): i32 {
    var u := n % WORD;
    if u < 0x8000_0000 then u else u - WORD
  }

  function Infos(list: seq<(nat, nat)>): (r: seq<RoomInfo>)
    ensures |r| == |list|
  {
    seq(|list|, i requires 0 <= i < |list| => RoomInfo(Int(list[i].0), Int(list[i].1), MAX_PLAYERS))
  }

  function Rooms(rooms: map<nat, Lobby.Room>, next: nat): (m: Reply)
    requires next < 0x8000_0000
    ensures m.RoomList? && Proper(m)
  {
    RoomList(Infos(Lobby.Listing(rooms, next)))
  }

  predicate Joinable(rooms: map<nat, Lobby.Room>, room: i32) {
    room >= 0 && Lobby.Open(rooms, room)
  }

  // The table and the counter after one request, its answer, the room joined by it, and the requests left.
  datatype Round = Round(
    rooms: map<nat, Lobby.Room>, next: nat, reply: seq<byte>, joined: Option<nat>, rest: seq<byte>)

  // `junk` stands for what a room number that is cut off by the end of the stream leaves in memory.
  function Answer(rooms: map<nat, Lobby.Room>, next: nat, id: nat, stream: seq<byte>, junk: i32): (a: Round)
    requires next < 0x7fff_ffff && stream != []
    ensures |a.rest| < |stream| && a.next <= next + 1
    ensures a.next + |a.rest| <= next + |stream|
  {
    if stream[0] == LIST_ROOMS then Round(rooms, next, Encode(Rooms(rooms, next)), None, stream[1..])
    else if stream[0] == CREATE_ROOM then
      Round(rooms[next := Lobby.Room([], false)], next + 1, Encode(RoomCreated(next)), None, stream[1..])
    else if stream[0] == JOIN_ROOM then
      var room := if |stream| < 5 then junk else FromI32(stream[1..5]);
      if Joinable(rooms, room) then
        Round(Lobby.Entered(rooms, id, room), next, Encode(RoomJoined(1)), Some(room), After(stream, 5))
      else Round(rooms, next, Encode(RoomJoined(0)), None, After(stream, 5))
    else Round(rooms, next, [], None, stream[1..])
  }

  // What the server makes of a request stream when nobody else is served in between.
  function Serve(rooms: map<nat, Lobby.Room>, next: nat, id: nat, stream: seq<byte>, junk: i32): Served
    requires next + |stream| < 0x8000_0000
    decreases |stream|
  {
    if stream == [] then Served(rooms, next, [], None, [])
    else
      var a := Answer(rooms, next, id, stream, junk);
      if a.joined.Some? then Served(a.rooms, a.next, a.reply, a.joined, a.rest)
      else Prefixed(a.reply, Serve(a.rooms, a.next, id, a.rest, junk))
  }

  function Prefixed(said: seq<byte>, s: Served): Served {
    s.(replies := said + s.replies)
  }

  lemma PrefixedTwice(a: seq<byte>, b: seq<byte>, s: Served)
    ensures Prefixed(a, Prefixed(b, s)) == Prefixed(a + b, s)
  {
    assert a + b + s.replies == a + (b + s.replies);
  }

  lemma ServesNext(rooms: map<nat, Lobby.Room>, next: nat, id: nat, stream: seq<byte>, junk: i32)
    requires next + |stream| < 0x8000_0000 && stream != []
    ensures var a := Answer(rooms, next, id, stream, junk);
            Serve(rooms, next, id, stream, junk)
            == if a.joined.Some? then Served(a.rooms, a.next, a.reply, a.joined, a.rest)
               else Prefixed(a.reply, Serve(a.rooms, a.next, id, a.rest, junk))
  {
  }

  lemma ServesNothing(rooms: map<nat, Lobby.Room>, next: nat, id: nat, junk: i32)
    requires next < 0x8000_0000
    ensures Serve(rooms, next, id, [], junk) == Served(rooms, next, [], None, [])
  {
  }

  /** The request loop of one connection. */
  method HandleClient(manager: ServerManager, id: nat, stream: seq<byte>, junk: i32)
    returns (replies: seq<byte>, joined: Option<nat>, rest: seq<byte>)
    requires manager.Valid() && manager.nextRoomId + |stream| < 0x8000_0000
    modifies manager, manager.rooms.Values
    ensures manager.Valid()
    ensures Served(manager.Table(), manager.nextRoomId, replies, joined, rest)
         == Serve(old(manager.Table()), old(manager.nextRoomId), id, stream, junk)
  {
    hide Serve, Answer;
    replies, joined, rest := [], None, stream;
    ghost var goal := Serve(manager.Table(), manager.nextRoomId, id, stream, junk);
    while rest != [] && joined == None
      invariant manager.Valid() && manager.nextRoomId + |rest| < 0x8000_0000
      invariant fresh(manager.rooms.Values - old(manager.rooms.Values))
      invariant joined == None ==>
        goal == Prefixed(replies, Serve(manager.Table(), manager.nextRoomId, id, rest, junk))
      invariant joined.Some? ==> goal == Served(manager.Table(), manager.nextRoomId, replies, joined, rest)
      decreases |rest|
    {
      ghost var before := replies;
      ServesNext(manager.Table(), manager.nextRoomId, id, rest, junk);
      var reply;
      reply, joined, rest := HandleRequest(manager, id, rest, junk);
      PrefixedTwice(before, reply, Serve(manager.Table(), manager.nextRoomId, id, rest, junk));
      replies := replies + reply;
    }
    if joined == None {
      ServesNothing(manager.Table(), manager.nextRoomId, id, junk);
      assert replies + [] == replies;
    }
  }

  /** One request: its answer, and what it does to the room table. */
  method HandleRequest(manager: ServerManager, id: nat, stream: seq<byte>, junk: i32)
    returns (reply: seq<byte>, joined: Option<nat>, rest: seq<byte>)
    requires manager.Valid() && manager.nextRoomId < 0x7fff_ffff && stream != []
    modifies manager, manager.rooms.Values
    ensures manager.Valid()
    ensures fresh(manager.rooms.Values - old(manager.rooms.Values))
    ensures Round(manager.Table(), manager.nextRoomId, reply, joined, rest)
         == Answer(old(manager.Table()), old(manager.nextRoomId), id, stream, junk)
  {
    hide Infos, Joinable, Lobby.Entered, Lobby.Listing, FromI32, After, Encode;
    joined, rest := None, stream[1..];
    if stream[0] == LIST_ROOMS {
      var list := manager.OnGetRooms();
      reply := Encode(RoomList(Infos(list)));
    } else if stream[0] == CREATE_ROOM {
      var room := manager.OnCreateRoom();
      reply := Encode(RoomCreated(room));
    } else if stream[0] == JOIN_ROOM {
      var room := if |stream| < 5 then junk else FromI32(stream[1..5]);
      rest := After(stream, 5);
      var ok := Join(manager, id, room);
      reply := Encode(RoomJoined(if ok then 1 else 0));
      if ok {
        joined := Some(room);
      }
    } else {
      reply := [];
    }
  }

  method Join(manager: ServerManager, id: nat, room: i32) returns (ok: bool)
    requires manager.Valid()
    modifies manager.rooms.Values
    ensures manager.Valid()
    ensures ok <==> Joinable(old(manager.Table()), room)
    ensures ok ==> room >= 0
    ensures manager.Table() == if ok then Lobby.Entered(old(manager.Table()), id, room) else old(manager.Table())
  {
    ok := false;
    if room >= 0 {
      ok := manager.OnJoinRoom(room, id);
    }
  }

  lemma {:induction false} RoomStands(rooms: seq<RoomInfo>, i: nat)
    requires i < |rooms|
    ensures EncodeRooms(rooms)[12 * i..12 * i + 12] == EncodeRoom(rooms[i])
  {
    hide EncodeRoom;
    if i > 0 {
      RoomStands(rooms[1..], i - 1);
      assert EncodeRooms(rooms)[12..] == EncodeRooms(rooms[1..]);
      assert EncodeRooms(rooms)[12 * i..12 * i + 12] == EncodeRooms(rooms)[12..][12 * (i - 1)..12 * (i - 1) + 12];
    }
  }

  // The three numbers of one record of a list.
  predicate Records(s: seq<byte>, id: nat, players: nat, most: nat)
    requires |s| == 12
  {
    FromI32(s[..4]) == id && FromI32(s[4..8]) == players && FromI32(s[8..]) == most
  }

  lemma RoomRecords(id: nat, players: nat)
    requires id < 0x8000_0000 && players < 0x8000_0000
    ensures Records(EncodeRoom(RoomInfo(Int(id), Int(players), MAX_PLAYERS)), id, players, 4)
  {
    hide LeI32, FromI32;
    assert Int(id) == id && Int(players) == players;
    LeI32RoundTrip(id);
    LeI32RoundTrip(players);
    LeI32RoundTrip(4);
    var s := EncodeRoom(RoomInfo(id, players, 4));
    assert s[..4] == LeI32(id) && s[4..8] == LeI32(players) && s[8..] == LeI32(4);
  }

  /** The answer to a list request says how many rooms there are, and of each, in order of ids, its id, how
      many players are in it, and that it has room for 4. */
  lemma ListAnswer(rooms: map<nat, Lobby.Room>, next: nat, i: nat)
    requires next < 0x8000_0000 && i < |Lobby.Listing(rooms, next)|
    requires forall r :: r in rooms ==> |rooms[r].members| < 0x8000_0000
    ensures var list, reply := Lobby.Listing(rooms, next), Encode(Rooms(rooms, next));
      && |reply| == 5 + 12 * |list| && reply[0] == LIST_ROOMS_RESPONSE && FromI32(reply[1..5]) == |list|
      && Records(reply[5 + 12 * i..5 + 12 * i + 12], list[i].0, list[i].1, 4)
      && list[i].0 in rooms && list[i].1 == |rooms[list[i].0].members|
  {
    hide LeI32, FromI32, EncodeRooms, EncodeRoom, Lobby.Listing, Records;
    var list, reply := Lobby.Listing(rooms, next), Encode(Rooms(rooms, next));
    Lobby.ListingRule(rooms, next);
    assert list[i] in list;
    LeI32RoundTrip(|list|);
    RoomStands(Infos(list), i);
    RoomRecords(list[i].0, list[i].1);
    assert reply[1..5] == LeI32(|list|);
    assert reply[5 + 12 * i..5 + 12 * i + 12] == EncodeRooms(Infos(list))[12 * i..12 * i + 12];
  }

  /** Any other byte is skipped: it has no answer and changes nothing. */
  lemma OthersIgnored(rooms: map<nat, Lobby.Room>, next: nat, id: nat, stream: seq<byte>, junk: i32)
    requires next < 0x7fff_ffff && stream != [] && stream[0] !in {4, 6, 8}
    ensures Answer(rooms, next, id, stream, junk) == Round(rooms, next, [], None, stream[1..])
  {
  }

  // ---------- among other connections ----------

  // The room table as one request finds it.
  datatype Table = Table(rooms: map<nat, Lobby.Room>, next: nat)

  predicate Small(tables: seq<Table>) {
    forall t :: t in tables ==> t.next < 0x7fff_ffff
  }

  // The answers on one connection, when the others have turned the table into tables[0], tables[1], ...
  // by the time its requests are taken.
  function RepliesAmong(tables: seq<Table>, id: nat, stream: seq<byte>, junk: i32): seq<byte>
    requires |stream| <= |tables| && Small(tables)
    decreases |stream|
  {
    if stream == [] then []
    else
      var a := Answer(tables[0].rooms, tables[0].next, id, stream, junk);
      if a.joined.Some? then a.reply else a.reply + RepliesAmong(tables[1..], id, a.rest, junk)
  }

  // n requests for the room list, whose answers nobody has read, and then another request.
  function AfterLists(n: nat, request: seq<byte>): (s: seq<byte>)
    ensures |s| == n + |request|
  {
    if n == 0 then request else [LIST_ROOMS] + AfterLists(n - 1, request)
  }

  function ListsOf(tables: seq<Table>, n: nat): (lists: seq<seq<RoomInfo>>)
    requires n <= |tables| && Small(tables)
    ensures |lists| == n && AllProper(lists)
  {
    if n == 0 then [] else [Rooms(tables[0].rooms, tables[0].next).rooms] + ListsOf(tables[1..], n - 1)
  }

  lemma {:induction false} ListsAnswered(tables: seq<Table>, id: nat, n: nat, request: seq<byte>, junk: i32)
    requires n + |request| <= |tables| && Small(tables)
    ensures RepliesAmong(tables, id, AfterLists(n, request), junk)
         == Lists(ListsOf(tables, n), RepliesAmong(tables[n..], id, request, junk))
  {
    hide Encode, Infos, Lobby.Listing;
    if n > 0 {
      ListsAnswered(tables[1..], id, n - 1, request, junk);
      assert AfterLists(n, request)[1..] == AfterLists(n - 1, request);
      assert tables[1..][n - 1..] == tables[n..];
      assert ListsOf(tables, n)[1..] == ListsOf(tables[1..], n - 1);
    } else {
      assert tables[0..] == tables;
    }
  }

  /** A client that has asked for the room list any number of times without reading the answers, and
      then asks for a room, is given by its polls the id of the room that the server then makes, whatever
      other connections do between its requests, and in whatever pieces the answers come in. */
  lemma CreateAnswered(tables: seq<Table>, id: nat, n: nat, arrivals: seq<nat>, junk: i32)
    requires n + 1 <= |tables| && Small(tables) && Ready(arrivals) > n
    ensures Polls(CREATE_ROOM_RESPONSE, RepliesAmong(tables, id, AfterLists(n, [CREATE_ROOM]), junk), arrivals)
         == Step(IDLE, [], Done(tables[n].next))
    ensures Answer(tables[n].rooms, tables[n].next, id, [CREATE_ROOM], junk).rooms
         == tables[n].rooms[tables[n].next := Lobby.Room([], false)]
  {
    hide Polls, Ready, LeI32, AfterLists, ListsOf;
    ListsAnswered(tables, id, n, [CREATE_ROOM], junk);
    assert tables[n] in tables;
    OneCreate(tables[n..], id, junk);
    AnswerIsFound(CREATE_ROOM_RESPONSE, ListsOf(tables, n), tables[n].next, [], arrivals);
  }

  lemma OneCreate(tables: seq<Table>, id: nat, junk: i32)
    requires |tables| > 0 && Small(tables)
    ensures RepliesAmong(tables, id, [CREATE_ROOM], junk) == [CREATE_ROOM_RESPONSE] + LeI32(tables[0].next) + []
  {
    hide LeI32;
    assert [CREATE_ROOM][1..] == [];
  }

  /** A client that asks to join gets a yes exactly when the room then exists and is not playing, and has
      been entered as its last member; otherwise its request leaves the table alone. */
  lemma JoinAnswered(tables: seq<Table>, id: nat, room: i32, n: nat, arrivals: seq<nat>, junk: i32)
    requires n + 5 <= |tables| && Small(tables) && Ready(arrivals) > n
    ensures var ok := Joinable(tables[n].rooms, room);
      && Polls(JOIN_ROOM_RESPONSE, RepliesAmong(tables, id, AfterLists(n, [JOIN_ROOM] + LeI32(room)), junk), arrivals)
         == Step(IDLE, [], Done(if ok then 1 else 0))
      && Answer(tables[n].rooms, tables[n].next, id, [JOIN_ROOM] + LeI32(room), junk).rooms
         == if ok then Lobby.Entered(tables[n].rooms, id, room) else tables[n].rooms
  {
    hide Polls, Ready, LeI32, AfterLists, ListsOf, Joinable, RepliesAmong, Answer;
    ListsAnswered(tables, id, n, [JOIN_ROOM] + LeI32(room), junk);
    assert tables[n] in tables;
    OneJoin(tables[n..], id, room, junk);
    var answer: i32 := if Joinable(tables[n].rooms, room) then 1 else 0;
    AnswerIsFound(JOIN_ROOM_RESPONSE, ListsOf(tables, n), answer, [], arrivals);
  }

  lemma OneJoin(tables: seq<Table>, id: nat, room: i32, junk: i32)
    requires |tables| >= 5 && Small(tables)
    ensures var ok, request := Joinable(tables[0].rooms, room), [JOIN_ROOM] + LeI32(room);
      && RepliesAmong(tables, id, request, junk) == [JOIN_ROOM_RESPONSE] + LeI32(if ok then 1 else 0) + []
      && Answer(tables[0].rooms, tables[0].next, id, request, junk).rooms
         == if ok then Lobby.Entered(tables[0].rooms, id, room) else tables[0].rooms
  {
    hide LeI32, FromI32, Joinable;
    var request := [JOIN_ROOM] + LeI32(room);
    LeI32RoundTrip(room);
    assert request[1..5] == LeI32(room);
    assert After(request, 5) == [];
  }
}
