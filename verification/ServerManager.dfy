/** The server's room table: games created, joined, started and left, and datagrams routed to them. */
module ServerManagers {
  import opened Protocol
  import opened Players
  import opened World
  import opened GameServer
  import Lobby

  function Members(players: seq<Player>): seq<nat> {
    seq(|players|, i requires 0 <= i < |players| => players[i].id)
  }

  // A game as module Lobby sees it.
  function AsRoom(g: GameValue): Lobby.Room {
    Lobby.Room(Members(g.players), g.status == PLAYING)
  }

  function TableOf(games: map<nat, GameValue>): (t: map<nat, Lobby.Room>)
    ensures t.Keys == games.Keys
  {
    map r | r in games :: AsRoom(games[r])
  }

  // A packet from this address for this game.
  function Takes(g: GameValue, pkt: InputPacket, addr: nat): GameValue {
    Handles(g.(players := Addressed(g.players, pkt.playerId, addr)), pkt)
  }

  function TakeLog(g: GameValue, pkt: InputPacket, addr: nat): seq<Datagram> {
    HandleLog(g.(players := Addressed(g.players, pkt.playerId, addr)), pkt)
  }

  class ServerManager {
    var rooms: map<nat, Game>
    var nextRoomId: nat

    // No two rooms share a game.
    ghost predicate Valid()
      reads this
    {
      && (forall a, b :: a in rooms && b in rooms && a != b ==> rooms[a] != rooms[b])
      && (forall r :: r in rooms ==> r < nextRoomId)
    }

    // All of all games.
    ghost function Games(): (games: map<nat, GameValue>)
      reads this, rooms.Values
      ensures games.Keys == rooms.Keys
    {
      map r | r in rooms :: rooms[r].Value()
    }

    ghost function Table(): (t: map<nat, Lobby.Room>)
      reads this, rooms.Values
      ensures t.Keys == rooms.Keys
    {
      TableOf(Games())
    }

    constructor ()
      ensures Valid() && rooms == map[] && nextRoomId == 0
    {
      rooms, nextRoomId := map[], 0;
    }

    method OnCreateRoom() returns (id: nat)
      requires Valid()
      modifies this
      ensures Valid()
      ensures id == old(nextRoomId) && nextRoomId == id + 1
      ensures fresh(rooms.Values - old(rooms.Values))
      ensures Games() == old(Games())[id := NEW_GAME]
      ensures Table() == old(Table())[id := Lobby.Room([], false)]
    {
      hide TableOf, AsRoom;
      NewRoom();
      TableUpdate(Games(), nextRoomId, NEW_GAME);
      var game := new Game();
      id := nextRoomId;
      AddRoom(game);
    }

    method AddRoom(game: Game)
      requires Valid() && game !in rooms.Values && game.Value() == NEW_GAME
      modifies this
      ensures rooms == old(rooms)[old(nextRoomId) := game] && nextRoomId == old(nextRoomId) + 1 && Valid()
      ensures rooms.Values <= old(rooms).Values + {game}
      ensures Games() == old(Games())[old(nextRoomId) := NEW_GAME]
    {
      rooms := rooms[nextRoomId := game];
      nextRoomId := nextRoomId + 1;
    }

    // The rooms and how many players are in each, in order of room ids.
    method OnGetRooms() returns (list: seq<(nat, nat)>)
      requires Valid()
      ensures list == Lobby.Listing(Table(), nextRoomId)
    {
      list := [];
      for r := 0 to nextRoomId
        invariant list == Lobby.Listing(Table(), r)
      {
        if r in rooms {
          list := list + [(r, |rooms[r].players|)];
        }
      }
    }

    method OnJoinRoom(roomId: nat, playerId: nat) returns (ok: bool)
      requires Valid()
      modifies rooms.Values
      ensures Valid()
      ensures ok <==> Lobby.Open(old(Table()), roomId)
      ensures ok ==> Games() == old(Games())[roomId := Joins(old(Games())[roomId], playerId)]
      ensures !ok ==> Games() == old(Games())
      ensures Table() == if ok then Lobby.Entered(old(Table()), playerId, roomId) else old(Table())
    {
      if roomId in rooms && rooms[roomId].status == LOBBY {
        ghost var games := Games();
        AddTo(roomId, playerId);
        TableUpdate(games, roomId, Joins(games[roomId], playerId));
        JoinsAsRoom(games[roomId], playerId);
        return true;
      }
      return false;
    }

    method AddTo(r: nat, playerId: nat)
      requires Valid() && r in rooms
      modifies rooms.Values
      ensures Games() == old(Games())[r := Joins(old(Games())[r], playerId)]
    {
      rooms[r].AddPlayer(playerId);
    }

    method IsGameStarting(roomId: nat) returns (starting: bool)
      requires Valid()
      ensures starting <==> roomId in Table() && Table()[roomId].playing
    {
      return roomId in rooms && rooms[roomId].status == PLAYING;
    }

    method OnStartGame(roomId: nat, playerId: nat)
      requires Valid()
      modifies rooms.Values
      ensures Valid()
      ensures Games() == if roomId in old(Games()) && playerId == Lobby.Host(AsRoom(old(Games())[roomId]))
                         then old(Games())[roomId := old(Games())[roomId].(status := PLAYING)] else old(Games())
      ensures Table() == Lobby.Started(old(Table()), playerId, roomId)
    {
      hide AsRoom, TableOf;
      TableStarted(Games(), playerId, roomId);
      if roomId in rooms {
        var host := rooms[roomId].GetHostId();
        HostAsRoom(Games()[roomId]);
        if playerId == host {
          StartRoom(roomId);
        }
      }
    }

    method StartRoom(r: nat)
      requires Valid() && r in rooms
      modifies rooms.Values
      ensures Games() == old(Games())[r := old(Games())[r].(status := PLAYING)]
    {
      rooms[r].status := PLAYING;
    }

    method OnPlayerDisconnect(playerId: nat, roomId: nat)
      requires Valid()
      modifies rooms.Values
      ensures Valid()
      ensures Games() == if roomId in old(Games())
                         then old(Games())[roomId := Quits(old(Games())[roomId], playerId)] else old(Games())
      ensures Table() == Lobby.Left(old(Table()), playerId, roomId)
    {
      hide Games, TableOf, Quits, Lobby.Left;
      TableLeft(Games(), playerId, roomId);
      if roomId in rooms {
        RemoveFrom(roomId, playerId);
      }
    }

    method RemoveFrom(r: nat, playerId: nat)
      requires Valid() && r in rooms
      modifies rooms.Values
      ensures Games() == old(Games())[r := Quits(old(Games())[r], playerId)]
    {
      hide Without;
      rooms[r].RemovePlayerFromLobby(playerId);
    }

    // The loop that looks through the rooms for a player; nextRoomId if there is no such room.
    method RoomOf(playerId: nat) returns (r: nat)
      requires Valid()
      ensures r == Lobby.FindRoom(Table(), playerId, 0, nextRoomId)
      ensures r in rooms <==> r < nextRoomId
    {
      hide Lobby.FindRoom, Table;
      r := 0;
      ghost var table := Table();
      while r < nextRoomId
        invariant r <= nextRoomId
        invariant Lobby.FindRoom(table, playerId, 0, nextRoomId) == Lobby.FindRoom(table, playerId, r, nextRoomId)
      {
        FindNext(table, playerId, r, nextRoomId);
        if r in rooms {
          var here := HasPlayer(r, playerId);
          if here {
            return;
          }
        }
        r := r + 1;
      }
      FindNone(table, playerId, nextRoomId);
    }

    method HasPlayer(r: nat, playerId: nat) returns (here: bool)
      requires Valid() && r in rooms
      ensures here <==> playerId in Table()[r].members
    {
      hide TableOf, IndexOf;
      var i := rooms[r].GetPlayer(playerId);
      PlayerIn(Games(), r, playerId);
      here := i < |rooms[r].players|;
    }

    /** A PLAYER_DISCONNECT datagram: the player leaves the room it is found in, those who stay are told,
        and nothing else happens to any game. */
    method OnDisconnectDatagram(playerId: nat, udp: Outbox)
      requires Valid()
      modifies rooms.Values, udp
      ensures Valid()
      ensures var r, games := Lobby.FindRoom(old(Table()), playerId, 0, nextRoomId), old(Games());
              && Games() == (if r in games then games[r := Quits(games[r], playerId)] else games)
              && udp.log == old(udp.log) + (if r in games then QuitLog(games[r], playerId) else [])
              && Table() == Lobby.Left(old(Table()), playerId, r)
    {
      hide Lobby.FindRoom, Games, Table, Quits, QuitLog;
      var r := RoomOf(playerId);
      if r in rooms {
        DisconnectFrom(r, playerId, udp);
      }
    }

    /** The shell's kick: the same, but the player is told first. */
    method Kick(playerId: nat, udp: Outbox)
      requires Valid()
      modifies rooms.Values, udp
      ensures Valid()
      ensures var r, games := Lobby.FindRoom(old(Table()), playerId, 0, nextRoomId), old(Games());
              && Games() == (if r in games then games[r := Quits(games[r], playerId)] else games)
              && udp.log == old(udp.log) + (if r in games then KickLog(games[r], playerId) else [])
              && Table() == Lobby.Left(old(Table()), playerId, r)
    {
      hide Lobby.FindRoom, Games, Table, Quits, KickLog;
      var r := RoomOf(playerId);
      if r in rooms {
        KickFrom(r, playerId, udp);
      }
    }

    /** A PLAYER_INPUT datagram goes to the one game that has the player: its player, its world and what
        it queues change as module GameServer says. Every other game stays as it is, and no game's
        membership or status changes. */
    method OnInputDatagram(pkt: InputPacket, addr: nat, udp: Outbox)
      requires Valid()
      modifies rooms.Values, udp
      ensures Valid()
      ensures var r, games := Lobby.FindRoom(old(Table()), pkt.playerId, 0, nextRoomId), old(Games());
              && Games() == (if r in games then games[r := Takes(games[r], pkt, addr)] else games)
              && udp.log == old(udp.log) + (if r in games then TakeLog(games[r], pkt, addr) else [])
              && Table() == old(Table())
    {
      hide Lobby.FindRoom, Games, Table, Takes, TakeLog;
      var r := RoomOf(pkt.playerId);
      if r in rooms {
        HandInput(r, pkt, addr, udp);
      }
    }

    method DisconnectFrom(r: nat, playerId: nat, udp: Outbox)
      requires Valid() && r in rooms
      modifies rooms.Values, udp
      ensures Games() == old(Games())[r := Quits(old(Games())[r], playerId)]
      ensures Table() == Lobby.Left(old(Table()), playerId, r)
      ensures udp.log == old(udp.log) + QuitLog(old(Games())[r], playerId)
    {
      hide Quits, QuitLog, TableOf, Lobby.Left;
      TableLeft(Games(), playerId, r);
      rooms[r].DisconnectPlayer(playerId, udp);
    }

    method KickFrom(r: nat, playerId: nat, udp: Outbox)
      requires Valid() && r in rooms
      modifies rooms.Values, udp
      ensures Games() == old(Games())[r := Quits(old(Games())[r], playerId)]
      ensures Table() == Lobby.Left(old(Table()), playerId, r)
      ensures udp.log == old(udp.log) + KickLog(old(Games())[r], playerId)
    {
      hide Quits, KickLog, TableOf, Lobby.Left;
      TableLeft(Games(), playerId, r);
      rooms[r].KickPlayer(playerId, udp);
    }

    method HandInput(r: nat, pkt: InputPacket, addr: nat, udp: Outbox)
      requires Valid() && r in rooms
      modifies rooms.Values, udp
      ensures Games() == old(Games())[r := Takes(old(Games())[r], pkt, addr)]
      ensures Table() == old(Table())
      ensures udp.log == old(udp.log) + TakeLog(old(Games())[r], pkt, addr)
    {
      hide Takes, TakeLog, TableOf, Games;
      TableTakes(Games(), pkt, addr, r);
      HandTo(r, pkt, addr, udp);
    }

    method HandTo(r: nat, pkt: InputPacket, addr: nat, udp: Outbox)
      requires Valid() && r in rooms
      modifies rooms.Values, udp
      ensures Games() == old(Games())[r := Takes(old(Games())[r], pkt, addr)]
      ensures udp.log == old(udp.log) + TakeLog(old(Games())[r], pkt, addr)
    {
      hide Takes, TakeLog;
      TakeInput(rooms[r], pkt, addr, udp);
    }

    static method TakeInput(game: Game, pkt: InputPacket, addr: nat, udp: Outbox)
      modifies game, udp
      ensures game.Value() == Takes(old(game.Value()), pkt, addr)
      ensures udp.log == old(udp.log) + TakeLog(old(game.Value()), pkt, addr)
    {
      hide Handles, HandleLog;
      game.UpdatePlayerUdpAddr(pkt.playerId, addr);
      game.HandlePlayerInput(pkt, udp);
    }
  }

  // ---------- what changes of a game change of the table ----------

  function Joins(g: GameValue, id: nat): GameValue {
    g.(players := g.players + [NewPlayer(id)])
  }

  lemma TableUpdate(games: map<nat, GameValue>, r: nat, g: GameValue)
    ensures TableOf(games[r := g]) == TableOf(games)[r := AsRoom(g)]
  {
  }

  lemma FindNext(rooms: map<nat, Lobby.Room>, id: nat, r: nat, end: nat)
    requires r < end
    ensures Lobby.FindRoom(rooms, id, r, end)
         == if r in rooms && id in rooms[r].members then r else Lobby.FindRoom(rooms, id, r + 1, end)
  {
  }

  lemma FindNone(rooms: map<nat, Lobby.Room>, id: nat, end: nat)
    ensures Lobby.FindRoom(rooms, id, end, end) == end
  {
  }

  lemma PlayerIn(games: map<nat, GameValue>, r: nat, id: nat)
    requires r in games
    ensures id in TableOf(games)[r].members <==> IndexOf(games[r].players, id) < |games[r].players|
  {
    IndexIsMember(games[r].players, id);
  }

  lemma HostAsRoom(g: GameValue)
    ensures Lobby.Host(AsRoom(g)) == if |g.players| == 0 then 0 else g.players[0].id
  {
  }

  lemma TableStarted(games: map<nat, GameValue>, id: nat, r: nat)
    ensures r in games && id == Lobby.Host(AsRoom(games[r])) ==>
              TableOf(games[r := games[r].(status := PLAYING)]) == Lobby.Started(TableOf(games), id, r)
    ensures !(r in games && id == Lobby.Host(AsRoom(games[r]))) ==>
              TableOf(games) == Lobby.Started(TableOf(games), id, r)
  {
    if r in games { TableUpdate(games, r, games[r].(status := PLAYING)); }
  }

  lemma NewRoom()
    ensures AsRoom(NEW_GAME) == Lobby.Room([], false)
  {
  }

  lemma JoinsAsRoom(g: GameValue, id: nat)
    ensures AsRoom(Joins(g, id)) == AsRoom(g).(members := AsRoom(g).members + [id])
  {
  }

  lemma TableLeft(games: map<nat, GameValue>, id: nat, r: nat)
    ensures r in games ==> TableOf(games[r := Quits(games[r], id)]) == Lobby.Left(TableOf(games), id, r)
    ensures r !in games ==> TableOf(games) == Lobby.Left(TableOf(games), id, r)
  {
    hide Lobby.Drop, Without, Members;
    if r in games {
      MembersWithout(games[r].players, id);
      TableUpdate(games, r, Quits(games[r], id));
    }
  }

  lemma TableTakes(games: map<nat, GameValue>, pkt: InputPacket, addr: nat, r: nat)
    requires r in games
    ensures TableOf(games[r := Takes(games[r], pkt, addr)]) == TableOf(games)
  {
    hide Members, AfterInput, Addressed;
    InputKeepsMembers(games[r].players, pkt, addr);
    TableUpdate(games, r, Takes(games[r], pkt, addr));
  }

  lemma InputKeepsMembers(players: seq<Player>, pkt: InputPacket, addr: nat)
    ensures Members(AfterInput(Addressed(players, pkt.playerId, addr), pkt)) == Members(players)
  {
  }

  lemma IndexIsMember(players: seq<Player>, id: nat)
    ensures IndexOf(players, id) < |players| <==> id in Members(players)
  {
    if IndexOf(players, id) < |players| {
      assert Members(players)[IndexOf(players, id)] == id;
    }
  }

  lemma {:induction false} MembersWithout(players: seq<Player>, id: nat)
    ensures Members(Without(players, id)) == Lobby.Drop(Members(players), id)
  {
    if |players| > 0 {
      var init := players[..|players| - 1];
      MembersWithout(init, id);
      assert Members(players)[..|players| - 1] == Members(init);
    }
  }
}
