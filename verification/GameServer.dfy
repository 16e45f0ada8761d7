/** The server's `Game` object: its fields are updated in place, section by section. */
module GameServer {
  import opened Protocol
  import opened World
  import opened Players
  import opened Wire
  import Gaps

  /** What a game hands to the UDP server, in order. */
  class Outbox {
    var log: seq<Datagram>

    constructor ()
      ensures log == []
    {
      log := [];
    }

    method QueueMessage(p: Packet, addr: nat)
      modifies this
      ensures log == old(log) + [Datagram(addr, p)]
    {
      log := log + [Datagram(addr, p)];
    }
  }

  datatype GameStatus = LOBBY | PLAYING

  // A game as a value, and what the events that change its players make of it and queue.
  datatype GameValue = GameValue(players: seq<Player>, world: World, status: GameStatus)

  const NEW_GAME := GameValue([], START, LOBBY)

  function Quits(g: GameValue, id: nat): GameValue {
    g.(players := Without(g.players, id))
  }

  function QuitLog(g: GameValue, id: nat): seq<Datagram> {
    Fanout(PlayerDisconnect(id), Addresses(Without(g.players, id)))
  }

  // The one who is kicked is told first.
  function KickLog(g: GameValue, id: nat): seq<Datagram> {
    var i := IndexOf(g.players, id);
    if i < |g.players| && g.players[i].addrSet then
      [Datagram(g.players[i].addr, YouHaveBeenKicked)] + QuitLog(g, id)
    else QuitLog(g, id)
  }

  // The shots that an input packet asks for.
  function ShotsOf(inputs: Inputs, at: Point): seq<Section> {
    ShotOf(inputs.pressed, at, false) + ShotOf(inputs.hold, at, true)
  }

  function ShotOf(wanted: bool, at: Point, charged: bool): seq<Section> {
    if wanted then [Shoot(at, charged)] else []
  }

  // The shots of a packet are fired from where it has moved its player.
  function ShotsAfter(players: seq<Player>, pkt: InputPacket): seq<Section> {
    var i := IndexOf(players, pkt.playerId);
    if i < |players| then ShotsOf(pkt.inputs, Advance(players[i], pkt).Pos()) else []
  }

  function Handles(g: GameValue, pkt: InputPacket): GameValue {
    g.(players := AfterInput(g.players, pkt), world := Exec(g.world, ShotsAfter(g.players, pkt)))
  }

  function HandleLog(g: GameValue, pkt: InputPacket): seq<Datagram> {
    RunLog(g.world, ShotsAfter(g.players, pkt), Addresses(AfterInput(g.players, pkt)))
  }

  function ShotsFrom(id: nat, boss: Point, vys: seq<real>): seq<Entity> {
    seq(|vys|, k requires 0 <= k < |vys| => NewBossShot(id + k, boss, vys[k]))
  }

  class Game {
    var players: seq<Player>
    var entities: seq<Entity>
    var nextEntityId: nat
    var gameTime: nat
    var bossHP: int
    var bossLevel: nat
    var lastBossShot: int
    var bossDeath: int
    var status: GameStatus

    // The part of the game that the sections of module World speak of.
    ghost function State(): World
      reads this
    {
      World(entities, nextEntityId, gameTime, bossHP, bossLevel, lastBossShot, bossDeath)
    }

    // All of the game.
    ghost function Value(): GameValue
      reads this
    {
      GameValue(players, State(), status)
    }

    constructor ()
      ensures Value() == NEW_GAME
    {
      players, entities, nextEntityId, gameTime := [], [], 1, 0;
      bossHP, bossLevel, lastBossShot, bossDeath := 0, 0, 0, 0;
      status := LOBBY;
    }

    // ---------- players ----------

    method AddPlayer(id: nat)
      modifies this`players
      ensures players == old(players) + [NewPlayer(id)]
    {
      players := players + [NewPlayer(id)];
    }

    // The index stands for what the original hands out, a player by address; |players| for nobody.
    method GetPlayer(id: nat) returns (i: nat)
      ensures i == IndexOf(players, id)
    {
      i := 0;
      while i < |players|
        invariant i <= |players|
        invariant IndexOf(players, id) == i + IndexOf(players[i..], id)
      {
        if players[i].id == id {
          return;
        }
        assert players[i..][1..] == players[i + 1..];
        i := i + 1;
      }
    }

    method UpdatePlayerUdpAddr(id: nat, addr: nat)
      modifies this`players
      ensures var i := IndexOf(old(players), id);
              players == if i < |old(players)| && !old(players)[i].addrSet
                         then old(players)[i := old(players)[i].(addr := addr, addrSet := true)] else old(players)
    {
      var i := GetPlayer(id);
      if i < |players| && !players[i].addrSet {
        players := players[i := players[i].(addr := addr, addrSet := true)];
      }
    }

    method SetPlayerLastProcessedTick(id: nat, tick: nat)
      modifies this`players
      ensures var i := IndexOf(old(players), id);
              players == if i < |old(players)| && tick > old(players)[i].lastProcessedTick
                         then old(players)[i := old(players)[i].(lastProcessedTick := tick)] else old(players)
    {
      var i := GetPlayer(id);
      if i < |players| && tick > players[i].lastProcessedTick {
        players := players[i := players[i].(lastProcessedTick := tick)];
      }
    }

    method GetHostId() returns (host: nat)
      ensures host == if |players| == 0 then 0 else players[0].id
    {
      host := if |players| == 0 then 0 else players[0].id;
    }

    method RemovePlayerFromLobby(id: nat)
      modifies this`players
      ensures players == Without(old(players), id)
    {
      var kept := [];
      for i := 0 to |players|
        invariant kept == Without(players[..i], id)
      {
        assert players[..i + 1][..i] == players[..i];
        if players[i].id != id {
          kept := kept + [players[i]];
        }
      }
      assert players[..|players|] == players;
      players := kept;
    }

    // The loop with which the original sends a packet to every player whose address is known.
    method SendToAll(p: Packet, udp: Outbox)
      modifies udp
      ensures udp.log == old(udp.log) + Fanout(p, Addresses(players))
    {
      for i := 0 to |players|
        invariant udp.log == old(udp.log) + Fanout(p, Addresses(players[..i]))
      {
        assert players[..i + 1][..i] == players[..i];
        if players[i].addrSet {
          udp.QueueMessage(p, players[i].addr);
        }
      }
      assert players[..|players|] == players;
    }

    method DisconnectPlayer(id: nat, udp: Outbox)
      modifies this`players, udp
      ensures Value() == Quits(old(Value()), id)
      ensures udp.log == old(udp.log) + QuitLog(old(Value()), id)
    {
      RemovePlayerFromLobby(id);
      SendToAll(PlayerDisconnect(id), udp);
    }

    method KickPlayer(id: nat, udp: Outbox)
      modifies this`players, udp
      ensures Value() == Quits(old(Value()), id)
      ensures udp.log == old(udp.log) + KickLog(old(Value()), id)
    {
      var i := GetPlayer(id);
      if i < |players| && players[i].addrSet {
        udp.QueueMessage(YouHaveBeenKicked, players[i].addr);
      }
      RemovePlayerFromLobby(id);
      SendToAll(PlayerDisconnect(id), udp);
    }

    // ---------- input ----------

    method HandlePlayerInput(pkt: InputPacket, udp: Outbox)
      modifies this, udp
      ensures Value() == Handles(old(Value()), pkt)
      ensures udp.log == old(udp.log) + HandleLog(old(Value()), pkt)
    {
      hide Exec, RunLog, Advance, ShotsOf;
      var i := GetPlayer(pkt.playerId);
      if i == |players| {
        NoRun(State(), Addresses(players));
        return;
      }
      AdvancePlayer(i, pkt);
      FireShots(pkt.inputs, players[i].Pos(), udp);
    }

    method AdvancePlayer(i: nat, pkt: InputPacket)
      requires i == IndexOf(players, pkt.playerId) && i < |players|
      modifies this`players
      ensures players == AfterInput(old(players), pkt)
    {
      CountInput(i, pkt.tick);
      SameIds(old(players), players, pkt.playerId);
      SetPlayerLastProcessedTick(pkt.playerId, pkt.tick);
      MovePlayer(i, pkt.inputs);
    }

    method CountInput(i: nat, tick: nat)
      requires i < |players|
      modifies this`players
      ensures players == old(players)[i := old(players)[i].(inputs := Gaps.Note(old(players)[i].inputs, tick))]
    {
      var c := players[i].inputs;
      if c.empty {
        c := Gaps.Counter(false, tick, 1, c.lost);
      } else if tick > c.last {
        var lostCount := tick - c.last - 1;
        if lostCount > 0 {
          c := c.(lost := c.lost + lostCount);
        }
        c := c.(received := c.received + 1, last := tick);
      }
      players := players[i := players[i].(inputs := c)];
    }

    method FireShots(inputs: Inputs, at: Point, udp: Outbox)
      modifies this`entities, this`nextEntityId, udp
      ensures State() == Exec(old(State()), ShotsOf(inputs, at))
      ensures udp.log == old(udp.log) + RunLog(old(State()), ShotsOf(inputs, at), Addresses(players))
    {
      hide Act, SectionLog, Exec, RunLog;
      RunConcat(State(), ShotOf(inputs.pressed, at, false), ShotOf(inputs.hold, at, true), Addresses(players));
      FireIf(inputs.pressed, at, false, udp);
      FireIf(inputs.hold, at, true, udp);
    }

    method FireIf(wanted: bool, at: Point, charged: bool, udp: Outbox)
      modifies this`entities, this`nextEntityId, udp
      ensures State() == Exec(old(State()), ShotOf(wanted, at, charged))
      ensures udp.log == old(udp.log) + RunLog(old(State()), ShotOf(wanted, at, charged), Addresses(players))
    {
      hide Act, SectionLog, Exec, RunLog;
      NoRun(State(), Addresses(players));
      RunNext(State(), [], Shoot(at, charged), Addresses(players));
      assert [] + [Shoot(at, charged)] == [Shoot(at, charged)];
      if wanted {
        if charged {
          CreatePlayerChargedShot(at, udp);
        } else {
          CreatePlayerShot(at, udp);
        }
      }
    }

    method MovePlayer(i: nat, inputs: Inputs)
      requires i < |players|
      modifies this`players
      ensures var at := Plus(old(players)[i].Pos(), Shift(inputs));
              players == old(players)[i := old(players)[i].(x := at.x, y := at.y)]
    {
      var velocity := 5;
      if inputs.up { players := players[i := players[i].(y := players[i].y - velocity as real)]; }
      if inputs.down { players := players[i := players[i].(y := players[i].y + velocity as real)]; }
      if inputs.left { players := players[i := players[i].(x := players[i].x - velocity)]; }
      if inputs.right { players := players[i := players[i].(x := players[i].x + velocity)]; }
    }

    method CreatePlayerShot(at: Point, udp: Outbox)
      modifies this`entities, this`nextEntityId, udp
      ensures State() == Act(old(State()), Shoot(at, false))
      ensures udp.log == old(udp.log) + SectionLog(old(State()), Shoot(at, false), Addresses(players))
    {
      var e := Entity(nextEntityId, SHOT, at.x + 25, at.y, 10, 0.0, 10, 5, false);
      Announce(e, udp);
      OneFanout(SpawnPacket(e), Addresses(players));
    }

    method CreatePlayerChargedShot(at: Point, udp: Outbox)
      modifies this`entities, this`nextEntityId, udp
      ensures State() == Act(old(State()), Shoot(at, true))
      ensures udp.log == old(udp.log) + SectionLog(old(State()), Shoot(at, true), Addresses(players))
    {
      var e := Entity(nextEntityId, CHARGED_SHOT, at.x + 25, at.y, 12, 0.0, 29, 30, false);
      Announce(e, udp);
      OneFanout(SpawnPacket(e), Addresses(players));
    }

    method CreateEnemy(spawnY: int, udp: Outbox)
      modifies this`entities, this`nextEntityId, udp
      ensures State() == Act(old(State()), SpawnEnemy(spawnY))
      ensures udp.log == old(udp.log) + SectionLog(old(State()), SpawnEnemy(spawnY), Addresses(players))
    {
      var kind, speed, width, height := ENEMY, -5, 32, 32;
      if gameTime > 30000 {
        kind, speed, width, height := FAST_ENEMY, -8, 40, 40;
      }
      var e := Entity(nextEntityId, kind, 1920, spawnY as real, speed, 0.0, width, height, false);
      Announce(e, udp);
      OneFanout(SpawnPacket(e), Addresses(players));
    }

    // Every creation ends like this: the entity joins the list and is announced to all.
    method Announce(e: Entity, udp: Outbox)
      requires e.id == nextEntityId
      modifies this`entities, this`nextEntityId, udp
      ensures entities == old(entities) + [e] && nextEntityId == old(nextEntityId) + 1
      ensures udp.log == old(udp.log) + Fanout(SpawnPacket(e), Addresses(players))
    {
      nextEntityId := nextEntityId + 1;
      entities := entities + [e];
      SendToAll(EntitySpawn(e.id, e.kind, Point(e.x, e.y)), udp);
    }

    // ---------- the sections of an update ----------

    method UpdateEntities(udp: Outbox)
      modifies this`entities, udp
      ensures State() == Act(old(State()), Move)
      ensures udp.log == old(udp.log) + SectionLog(old(State()), Move, Addresses(players))
    {
      MoveAndErase(udp);
      assert MovePackets(old(entities))[..|old(entities)|] == MovePackets(old(entities));
    }

    // The erase loop.
    method MoveAndErase(udp: Outbox)
      modifies this`entities, udp
      ensures entities == MoveAll(old(entities))
      ensures udp.log == old(udp.log) + FanoutAll(MovePackets(old(entities)), Addresses(players))
    {
      hide MoveAll, Halfway, Moved, Leaves, MovePacket;
      ghost var es := entities;
      ghost var k: nat := 0;
      ghost var addrs := Addresses(players);
      var i := 0;
      HalfwayEnds(es);
      while i < |entities|
        invariant k <= |es|
        invariant i == |MoveAll(es[..k])|
        invariant entities == Halfway(es, k)
        invariant |entities| == i + |es| - k
        invariant udp.log == old(udp.log) + FanoutAll(MovePackets(es)[..k], addrs)
        decreases |es| - k
      {
        HalfwayAt(es, k);
        MovePacketsNext(es, k, addrs);
        i := MoveOrErase(i, udp);
        k := k + 1;
      }
      assert MovePackets(es)[..k] == MovePackets(es);
    }

    // One round of the loop: entity i moves, and stays or goes.
    method MoveOrErase(i: nat, udp: Outbox) returns (next: nat)
      requires i < |entities|
      modifies this`entities, udp
      ensures var e := old(entities)[i];
              && entities == old(entities)[..i] + (if Leaves(Moved(e)) then [] else [Moved(e)]) + old(entities)[i + 1..]
              && next == (if Leaves(Moved(e)) then i else i + 1)
              && udp.log == old(udp.log) + Fanout(MovePacket(e), Addresses(players))
    {
      var e := entities[i].(x := entities[i].x + entities[i].vx, y := entities[i].y + entities[i].vy);
      entities := entities[i := e];
      if e.x > 1920 || e.x < -20 || e.hit {
        SendToAll(EntityDestroy(e.id), udp);
        entities := entities[..i] + entities[i + 1..];
        next := i;
      } else {
        SendToAll(EntityUpdate(e.id, Point(e.x, e.y)), udp);
        next := i + 1;
      }
    }

    method HandleCollision(udp: Outbox)
      modifies this`entities, this`bossHP, this`bossLevel, this`bossDeath, udp
      ensures State() == Act(old(State()), Collide(Positions(players)))
      ensures udp.log == old(udp.log) + SectionLog(old(State()), Collide(Positions(players)), Addresses(players))
    {
      FireAllShots(udp);
      MarkRammed();
    }

    // The projectile phase: the outer loop.
    method FireAllShots(udp: Outbox)
      modifies this`entities, this`bossHP, this`bossLevel, this`bossDeath, udp
      ensures State() == ShotPhase(old(State())).world
      ensures udp.log == old(udp.log) + FanoutAll(ShotPhase(old(State())).packets, Addresses(players))
    {
      hide Fire, FanoutAll;
      NoFanout(Addresses(players));
      ghost var w := State();
      ghost var addrs := Addresses(players);
      for i := 0 to |entities|
        invariant |entities| == |w.entities|
        invariant State() == Volleys(w, i).world
        invariant udp.log == old(udp.log) + FanoutAll(Volleys(w, i).packets, addrs)
      {
        ghost var v := Volleys(w, i);
        FireShot(i, udp, v);
        FanoutConcat(v.packets, Fire(v, i).packets, addrs);
        assert Volleys(w, i + 1) == Fire(v, i);
      }
    }

    // The inner loop of the projectile phase, for one entity.
    method FireShot(i: nat, udp: Outbox, ghost v: Volley)
      requires i < |entities| && State() == v.world
      modifies this`entities, this`bossHP, this`bossLevel, this`bossDeath, udp
      ensures State() == Fire(v, i).world
      ensures v.packets <= Fire(v, i).packets
      ensures udp.log == old(udp.log) + FanoutAll(Fire(v, i).packets[|v.packets|..], Addresses(players))
    {
      ghost var w := State();
      ghost var addrs := Addresses(players);
      ghost var target := FirstTarget(w.entities, i, 0);
      if entities[i].kind != SHOT && entities[i].kind != CHARGED_SHOT {
        NoTarget(w.entities, i, 0);
        return;
      }
      for j := 0 to |entities|
        invariant |entities| == |w.entities|
        invariant j <= target ==> State() == w && udp.log == old(udp.log)
        invariant j > target ==>
                    && State() == Struck(w, i, target)
                    && udp.log == old(udp.log) + FanoutAll(Landed(v, i, target).packets[|v.packets|..], addrs)
      {
        if j > target {
          assert entities[i].hit;
        }
        if IsTarget(entities[j]) && !entities[i].hit && !entities[j].hit
           && Overlap(entities[i].x, entities[i].y, entities[i].width, entities[i].height,
                      entities[j].x, entities[j].y, entities[j].width, entities[j].height) {
          assert Strikes(w.entities, i, j) && j == target;
          StrikeTarget(i, j, udp);
        }
      }
    }

    // Shot i strikes target j.
    method StrikeTarget(i: nat, j: nat, udp: Outbox)
      requires i < |entities| && j < |entities| && Strikes(entities, i, j)
      modifies this`entities, this`bossHP, this`bossLevel, this`bossDeath, udp
      ensures State() == Struck(old(State()), i, j)
      ensures var w := old(State());
              udp.log == old(udp.log)
                + FanoutAll(if w.entities[j].kind == BOSS
                            then [BossState(w.bossHP - Damage(w.entities[i]), MaxHp(w))] else [], Addresses(players))
    {
      hide FanoutAll, Addresses, Touch;
      NoFanout(Addresses(players));
      entities := entities[i := entities[i].(hit := true)];
      if entities[j].kind == BOSS {
        var damage := if entities[i].kind == CHARGED_SHOT then 50 else 10;
        bossHP := bossHP - damage;
        var p := BossState(bossHP, if bossLevel == 3 then 2000 else 1000);
        SendToAll(p, udp);
        OneFanout(p, Addresses(players));
        if bossHP <= 0 {
          BossDies(j);
        }
      } else {
        entities := entities[j := entities[j].(hit := true)];
      }
    }

    method BossDies(j: nat)
      requires j < |entities|
      modifies this`entities, this`bossLevel, this`bossDeath
      ensures entities == MarkHit(old(entities), j)
      ensures bossLevel == if old(bossLevel) == 1 then 2 else if old(bossLevel) == 3 then 4 else old(bossLevel)
      ensures bossDeath == if old(bossLevel) == 1 then gameTime else old(bossDeath)
    {
      entities := entities[j := entities[j].(hit := true)];
      if bossLevel == 1 {
        bossLevel := 2;
        bossDeath := gameTime;
      } else if bossLevel == 3 {
        bossLevel := 4;
      }
    }

    // The player phase: nested loops over players and entities.
    method MarkRammed()
      modifies this`entities
      ensures entities == PlayerPhase(old(entities), Positions(players))
    {
      ghost var es := entities;
      ghost var ps := Positions(players);
      for k := 0 to |players|
        invariant entities == PlayerPhase(es, ps[..k])
      {
        for j := 0 to |entities|
          invariant |entities| == |es|
          invariant forall n :: 0 <= n < j ==> entities[n] == Singed(es[n], ps[..k + 1])
          invariant forall n :: j <= n < |es| ==> entities[n] == Singed(es[n], ps[..k])
        {
          SingedNext(es[j], ps, k);
          if (entities[j].kind == ENEMY || entities[j].kind == FAST_ENEMY || entities[j].kind == BOSS_SHOT)
             && !entities[j].hit
             && Overlap(players[k].x, players[k].y, 60, 30,
                        entities[j].x, entities[j].y, entities[j].width, entities[j].height) {
            entities := entities[j := entities[j].(hit := true)];
          }
        }
      }
      assert ps[..|ps|] == ps;
    }

    method BroadcastGameState(udp: Outbox)
      modifies this`players, udp
      ensures players == AllNumbered(old(players))
      ensures udp.log == old(udp.log) + FanoutAll(StatePackets(old(players)), Addresses(old(players)))
    {
      hide StatePacket, Fanout, FanoutAll, Addresses;
      NoFanout(Addresses(players));
      ghost var ps := players;
      ghost var addrs := Addresses(ps);
      for i := 0 to |players|
        invariant |players| == |ps|
        invariant forall n :: 0 <= n < i ==> players[n] == Numbered(ps[n])
        invariant forall n :: i <= n < |ps| ==> players[n] == ps[n]
        invariant Addresses(players) == addrs
        invariant udp.log == old(udp.log) + FanoutAll(StatePackets(ps[..i]), addrs)
      {
        assert ps[..i + 1][..i] == ps[..i];
        if players[i].addrSet {
          SendState(i, udp);
          SameAddresses(ps, players);
          FanoutNext(StatePackets(ps[..i]), StatePacket(ps[i]), addrs);
        }
      }
      assert ps[..|ps|] == ps;
    }

    method SendState(i: nat, udp: Outbox)
      requires i < |players| && players[i].addrSet
      modifies this`players, udp
      ensures players == old(players)[i := Numbered(old(players)[i])]
      ensures udp.log == old(udp.log) + Fanout(StatePacket(old(players)[i]), Addresses(old(players)))
    {
      var p := players[i];
      players := players[i := p.(stateSequence := p.stateSequence + 1)];
      SameAddresses(old(players), players);
      SendToAll(PlayerState(p.id, p.stateSequence, p.lastProcessedTick, Point(p.x, p.y)), udp);
    }

    method UpdateGameLevel(elapsed: nat, sin: real -> real)
      modifies this`gameTime, this`entities
      ensures gameTime == old(gameTime) + elapsed
      ensures entities == SteerAll(old(entities), gameTime, bossLevel, sin)
    {
      gameTime := gameTime + elapsed;
      SteerEntities(sin);
    }

    method SteerEntities(sin: real -> real)
      modifies this`entities
      ensures entities == SteerAll(old(entities), gameTime, bossLevel, sin)
    {
      ghost var es := entities;
      for i := 0 to |entities|
        invariant |entities| == |es|
        invariant forall n :: 0 <= n < i ==> entities[n] == Steer(es[n], gameTime, bossLevel, sin)
        invariant forall n :: i <= n < |es| ==> entities[n] == es[n]
      {
        var e := entities[i];
        if gameTime > 60000 && (e.kind == ENEMY || e.kind == FAST_ENEMY) {
          e := e.(vy := 5.0 * sin(Seconds(gameTime) * 2.0 + e.id as real));
        }
        if e.kind == BOSS {
          if e.x > 1500 {
            e := e.(vx := -2, vy := 0.0);
          } else if bossLevel == 3 {
            e := e.(vx := 0, vy := 8.0 * sin(Seconds(gameTime) * 4.0));
          } else {
            e := e.(vx := 0, vy := 3.0 * sin(Seconds(gameTime)));
          }
        }
        assert e == Steer(es[i], gameTime, bossLevel, sin);
        entities := entities[i := e];
      }
    }

    method SpawnBossIfDue(udp: Outbox)
      modifies this`entities, this`nextEntityId, this`bossHP, this`bossLevel, udp
      ensures State() == Act(old(State()), SpawnBoss)
      ensures udp.log == old(udp.log) + SectionLog(old(State()), SpawnBoss, Addresses(players))
    {
      ghost var w := State();
      var spawnBoss := false;
      if bossLevel == 0 && gameTime > 10000 {
        bossLevel, bossHP, spawnBoss := 1, 1000, true;
      } else if bossLevel == 2 && gameTime > bossDeath {
        bossLevel, bossHP, spawnBoss := 3, 2000, true;
      }
      if spawnBoss {
        var e := Entity(nextEntityId, BOSS, 1600, 400.0, -2, 0.0, 296, 88, false);
        nextEntityId := nextEntityId + 1;
        entities := entities + [e];
        assert Spawned(w, SpawnBoss) == [e];
        assert Emitted(w, SpawnBoss) == [SpawnPacket(e), BossState(bossHP, bossHP)];
        AnnounceBoss(SpawnPacket(e), BossState(bossHP, bossHP), udp);
      } else {
        assert w.entities + [] == w.entities;
        assert Emitted(w, SpawnBoss) == [];
        BurstNothing(Addresses(players));
      }
    }

    method AnnounceBoss(spawn: Packet, bossState: Packet, udp: Outbox)
      modifies udp
      ensures udp.log == old(udp.log) + Burst([spawn, bossState], Addresses(players))
    {
      for i := 0 to |players|
        invariant udp.log == old(udp.log) + Burst([spawn, bossState], Addresses(players[..i]))
      {
        assert players[..i + 1][..i] == players[..i];
        ghost var before := Addresses(players[..i]);
        if players[i].addrSet {
          udp.QueueMessage(spawn, players[i].addr);
          udp.QueueMessage(bossState, players[i].addr);
          assert (before + [players[i].addr])[..|before|] == before;
        }
      }
      assert players[..|players|] == players;
    }

    method BossShoot(udp: Outbox)
      modifies this`entities, this`nextEntityId, this`lastBossShot, udp
      ensures State() == Act(old(State()), BossFire)
      ensures udp.log == old(udp.log) + SectionLog(old(State()), BossFire, Addresses(players))
    {
      hide Act, SectionLog, BossShots;
      if bossLevel == 1 || bossLevel == 3 {
        var b := FindBossEntity();
        var shootInterval := if bossLevel == 3 then 1000 else 1500;
        if b < |entities| && gameTime - lastBossShot > shootInterval {
          FireBoss(b, udp);
          return;
        }
      }
      HoldsFire(State(), Addresses(players));
    }

    method FindBossEntity() returns (b: nat)
      ensures b == FindBoss(entities, 0)
    {
      b := 0;
      while b < |entities| && entities[b].kind != BOSS
        invariant b <= |entities| && FindBoss(entities, 0) == FindBoss(entities, b)
      {
        b := b + 1;
      }
    }

    method FireBoss(b: nat, udp: Outbox)
      requires BossFires(State()) && b == FindBoss(entities, 0) && b < |entities|
      modifies this`entities, this`nextEntityId, this`lastBossShot, udp
      ensures State() == Act(old(State()), BossFire)
      ensures udp.log == old(udp.log) + SectionLog(old(State()), BossFire, Addresses(players))
    {
      hide Act, SectionLog, BossShots, BossFires;
      FiresShots(State(), Addresses(players));
      lastBossShot := gameTime;
      var vys := if bossLevel == 3 then [-5.0, 0.0, 5.0] else [0.0];
      ShootAll(Point(entities[b].x, entities[b].y), vys, udp);
    }

    method ShootAll(boss: Point, vys: seq<real>, udp: Outbox)
      modifies this`entities, this`nextEntityId, udp
      ensures entities == old(entities) + ShotsFrom(old(nextEntityId), boss, vys)
      ensures nextEntityId == old(nextEntityId) + |vys|
      ensures udp.log == old(udp.log)
                + FanoutAll(SpawnPackets(ShotsFrom(old(nextEntityId), boss, vys)), Addresses(players))
    {
      hide ShotsFrom, SpawnPackets, FanoutAll, Addresses;
      ghost var id, addrs := nextEntityId, Addresses(players);
      NoShots(id, boss, addrs);
      assert vys[..0] == [];
      for k := 0 to |vys|
        invariant entities == old(entities) + ShotsFrom(id, boss, vys[..k]) && nextEntityId == id + k
        invariant udp.log == old(udp.log) + FanoutAll(SpawnPackets(ShotsFrom(id, boss, vys[..k])), addrs)
      {
        var e := Entity(nextEntityId, BOSS_SHOT, boss.x, boss.y + 80.0, -15, vys[k], 30, 30, false);
        Announce(e, udp);
        assert vys[..k + 1] == vys[..k] + [vys[k]];
        ShotsNext(id, boss, vys[..k], vys[k], addrs);
      }
      assert vys[..|vys|] == vys;
    }

    method SendGlobalStateSync(udp: Outbox)
      modifies udp
      ensures State() == Act(old(State()), Sync)
      ensures udp.log == old(udp.log) + SectionLog(old(State()), Sync, Addresses(players))
    {
      var entries: seq<Entry<Point>> := [];
      for i := 0 to |entities|
        invariant entries == Entries(entities[..i])
      {
        entries := entries + [Entry(entities[i].id, entities[i].kind, Point(entities[i].x, entities[i].y))];
      }
      assert entities[..|entities|] == entities;
      SendToAll(GlobalStateSync(entries), udp);
      OneFanout(GlobalStateSync(entries), Addresses(players));
    }

    // ---------- one update ----------

    // The sections of one update, before and after the broadcast of the players' states.
    static function Before(players: seq<Player>): seq<Section> {
      [Move, Collide(Positions(players))]
    }

    static function Rest(sin: real -> real, enemyDue: bool, spawnY: int, syncDue: bool): seq<Section> {
      [Level(sin), SpawnBoss, BossFire, if enemyDue then SpawnEnemy(spawnY) else Skip, if syncDue then Sync else Skip]
    }

    /** One round of the game loop. Whether an enemy or a sync is due depends on the wall clock; the
        enemy's height on a random number. */
    method Update(udp: Outbox, sin: real -> real, enemyDue: bool, spawnY: int, syncDue: bool)
      modifies this, udp
      ensures status == old(status)
      ensures old(status) == LOBBY ==>
                players == old(players) && State() == old(State()) && udp.log == old(udp.log)
      ensures old(status) == PLAYING ==>
                var before, rest := Before(old(players)), Rest(sin, enemyDue, spawnY, syncDue);
                var addrs, w := Addresses(old(players)), Exec(old(State()), before);
                && players == AllNumbered(old(players))
                && State() == Exec(w, rest)
                && udp.log == old(udp.log) + RunLog(old(State()), before, addrs)
                              + FanoutAll(StatePackets(old(players)), addrs) + RunLog(w, rest, addrs)
    {
      hide Exec, RunLog, FanoutAll, Addresses, StatePackets, AllNumbered;
      if status != PLAYING {
        return;
      }
      SameStates(players);
      UpdateAndCollide(udp);
      BroadcastGameState(udp);
      LevelToSync(udp, sin, enemyDue, spawnY, syncDue);
    }

    method UpdateAndCollide(udp: Outbox)
      modifies this`entities, this`bossHP, this`bossLevel, this`bossDeath, udp
      ensures State() == Exec(old(State()), Before(players))
      ensures udp.log == old(udp.log) + RunLog(old(State()), Before(players), Addresses(players))
    {
      hide Act, SectionLog, Exec, RunLog;
      NoRun(State(), Addresses(players));
      ghost var w, addrs := State(), Addresses(players);
      UpdateEntities(udp);
      RunNext(w, [], Move, addrs);
      HandleCollision(udp);
      RunNext(w, [] + [Move], Collide(Positions(players)), addrs);
      assert [] + [Move] + [Collide(Positions(players))] == Before(players);
    }

    method LevelToSync(udp: Outbox, sin: real -> real, enemyDue: bool, spawnY: int, syncDue: bool)
      modifies this`entities, this`nextEntityId, this`gameTime, this`bossHP, this`bossLevel, this`lastBossShot, udp
      ensures var rest := Rest(sin, enemyDue, spawnY, syncDue);
              && State() == Exec(old(State()), rest)
              && udp.log == old(udp.log) + RunLog(old(State()), rest, Addresses(players))
    {
      hide Act, SectionLog, Exec, RunLog;
      ghost var w, addrs := State(), Addresses(players);
      LevelAndBoss(udp, sin);
      EnemyAndSync(udp, enemyDue, spawnY, syncDue);
      ghost var rest := Rest(sin, enemyDue, spawnY, syncDue);
      RunConcat(w, [Level(sin), SpawnBoss, BossFire], rest[3..], addrs);
      assert rest == [Level(sin), SpawnBoss, BossFire] + rest[3..];
    }

    method LevelAndBoss(udp: Outbox, sin: real -> real)
      modifies this`entities, this`nextEntityId, this`gameTime, this`bossHP, this`bossLevel, this`lastBossShot, udp
      ensures State() == Exec(old(State()), [Level(sin), SpawnBoss, BossFire])
      ensures udp.log == old(udp.log) + RunLog(old(State()), [Level(sin), SpawnBoss, BossFire], Addresses(players))
    {
      hide Act, SectionLog, Exec, RunLog;
      NoRun(State(), Addresses(players));
      ghost var w, addrs := State(), Addresses(players);
      UpdateGameLevel(16, sin);
      LevelActs(w, sin);
      LevelIsSilent(w, sin, addrs);
      RunNext(w, [], Level(sin), addrs);
      SpawnBossIfDue(udp);
      RunNext(w, [] + [Level(sin)], SpawnBoss, addrs);
      BossShoot(udp);
      RunNext(w, [] + [Level(sin)] + [SpawnBoss], BossFire, addrs);
      assert [] + [Level(sin)] + [SpawnBoss] + [BossFire] == [Level(sin), SpawnBoss, BossFire];
    }

    method EnemyAndSync(udp: Outbox, enemyDue: bool, spawnY: int, syncDue: bool)
      modifies this`entities, this`nextEntityId, udp
      ensures var run := [if enemyDue then SpawnEnemy(spawnY) else Skip, if syncDue then Sync else Skip];
              && State() == Exec(old(State()), run)
              && udp.log == old(udp.log) + RunLog(old(State()), run, Addresses(players))
    {
      hide Act, SectionLog, Exec, RunLog;
      NoRun(State(), Addresses(players));
      ghost var w, addrs := State(), Addresses(players);
      ghost var first, second := if enemyDue then SpawnEnemy(spawnY) else Skip, if syncDue then Sync else Skip;
      if enemyDue {
        CreateEnemy(spawnY, udp);
      } else {
        SkipDoesNothing(State(), addrs);
      }
      RunNext(w, [], first, addrs);
      if syncDue {
        SendGlobalStateSync(udp);
      } else {
        SkipDoesNothing(State(), addrs);
      }
      RunNext(w, [] + [first], second, addrs);
      assert [] + [first] + [second] == [first, second];
    }
  }

  // ---------- facts used above ----------

  lemma NoShots(id: nat, boss: Point, addrs: seq<nat>)
    ensures ShotsFrom(id, boss, []) == [] && FanoutAll(SpawnPackets([]), addrs) == []
  {
  }

  lemma ShotsNext(id: nat, boss: Point, vys: seq<real>, vy: real, addrs: seq<nat>)
    ensures var shots, e := ShotsFrom(id, boss, vys), NewBossShot(id + |vys|, boss, vy);
      && ShotsFrom(id, boss, vys + [vy]) == shots + [e]
      && FanoutAll(SpawnPackets(shots + [e]), addrs)
         == FanoutAll(SpawnPackets(shots), addrs) + Fanout(SpawnPacket(e), addrs)
  {
    var shots, e := ShotsFrom(id, boss, vys), NewBossShot(id + |vys|, boss, vy);
    hide FanoutAll, NewBossShot;
    assert SpawnPackets(shots + [e]) == SpawnPackets(shots) + [SpawnPacket(e)];
    FanoutNext(SpawnPackets(shots), SpawnPacket(e), addrs);
  }

  lemma HoldsFire(w: World, addrs: seq<nat>)
    requires !BossFires(w)
    ensures Act(w, BossFire) == w && SectionLog(w, BossFire, addrs) == []
  {
    hide BossFires;
    assert w.entities + [] == w.entities && SpawnPackets([]) == [];
  }

  lemma FiresShots(w: World, addrs: seq<nat>)
    requires BossFires(w)
    ensures FindBoss(w.entities, 0) < |w.entities|
    ensures var boss := w.entities[FindBoss(w.entities, 0)].Pos();
            var shots := ShotsFrom(w.nextId, boss, if w.bossLevel == 3 then [-5.0, 0.0, 5.0] else [0.0]);
      && Act(w, BossFire) == w.(entities := w.entities + shots, nextId := w.nextId + |shots|, lastBossShot := w.time)
      && SectionLog(w, BossFire, addrs) == FanoutAll(SpawnPackets(shots), addrs)
      && |shots| == if w.bossLevel == 3 then 3 else 1
  {
    hide FanoutAll, SpawnPackets, NewBossShot;
    var boss := w.entities[FindBoss(w.entities, 0)].Pos();
    assert BossShots(w) == ShotsFrom(w.nextId, boss, if w.bossLevel == 3 then [-5.0, 0.0, 5.0] else [0.0]);
  }

  lemma NoRun(w: World, addrs: seq<nat>)
    ensures Exec(w, []) == w && RunLog(w, [], addrs) == []
  {
  }

  lemma OneFanout(p: Packet, addrs: seq<nat>)
    ensures FanoutAll([p], addrs) == Fanout(p, addrs)
  {
    assert [p][..0] == [];
  }

  lemma NoFanout(addrs: seq<nat>)
    ensures FanoutAll([], addrs) == []
  {
  }

  lemma FanoutNext(ps: seq<Packet>, p: Packet, addrs: seq<nat>)
    ensures FanoutAll(ps + [p], addrs) == FanoutAll(ps, addrs) + Fanout(p, addrs)
  {
    assert (ps + [p])[..|ps|] == ps;
  }

  lemma HalfwayEnds(es: seq<Entity>)
    ensures MoveAll(es[..0]) == [] && Halfway(es, 0) == es && Halfway(es, |es|) == MoveAll(es)
  {
    assert es[..|es|] == es;
  }

  // The entity that the erase loop looks at, and the list after that round.
  lemma HalfwayAt(es: seq<Entity>, k: nat)
    requires k < |es|
    ensures var i, now := |MoveAll(es[..k])|, if Leaves(Moved(es[k])) then [] else [Moved(es[k])];
            && i < |Halfway(es, k)| && Halfway(es, k)[i] == es[k]
            && Halfway(es, k + 1) == Halfway(es, k)[..i] + now + Halfway(es, k)[i + 1..]
            && |MoveAll(es[..k + 1])| == i + |now|
  {
    HalfwayRound(es, k);
    assert es[..k + 1][..k] == es[..k];
  }

  lemma MovePacketsNext(es: seq<Entity>, k: nat, addrs: seq<nat>)
    requires k < |es|
    ensures FanoutAll(MovePackets(es)[..k + 1], addrs)
         == FanoutAll(MovePackets(es)[..k], addrs) + Fanout(MovePacket(es[k]), addrs)
  {
    var ps := MovePackets(es);
    assert ps[..k + 1] == ps[..k] + [ps[k]];
    FanoutNext(ps[..k], ps[k], addrs);
  }

  lemma {:induction false} FanoutConcat(a: seq<Packet>, b: seq<Packet>, addrs: seq<nat>)
    requires a <= b
    ensures FanoutAll(b, addrs) == FanoutAll(a, addrs) + FanoutAll(b[|a|..], addrs)
  {
    if |a| == |b| {
      assert a == b && b[|a|..] == [];
    } else {
      var init, rest := b[..|b| - 1], b[|a|..];
      assert a <= init;
      FanoutConcat(a, init, addrs);
      assert rest[..|rest| - 1] == init[|a|..] && rest[|rest| - 1] == b[|b| - 1];
    }
  }

  lemma LevelActs(w: World, sin: real -> real)
    ensures Act(w, Level(sin))
         == w.(time := w.time + 16, entities := SteerAll(w.entities, w.time + 16, w.bossLevel, sin))
  {
  }

  lemma LevelIsSilent(w: World, sin: real -> real, addrs: seq<nat>)
    ensures SectionLog(w, Level(sin), addrs) == []
  {
  }

  lemma SkipDoesNothing(w: World, addrs: seq<nat>)
    ensures Act(w, Skip) == w && SectionLog(w, Skip, addrs) == []
  {
  }

  lemma {:induction false} BurstNothing(addrs: seq<nat>)
    ensures Burst([], addrs) == []
  {
    if |addrs| > 0 { BurstNothing(addrs[..|addrs| - 1]); }
  }

  lemma {:induction false} NoTarget(es: seq<Entity>, i: nat, j: nat)
    requires i < |es| && j <= |es| && !IsShot(es[i])
    ensures FirstTarget(es, i, j) == |es|
    decreases |es| - j
  {
    if j < |es| { NoTarget(es, i, j + 1); }
  }

  lemma SingedNext(e: Entity, ps: seq<Point>, k: nat)
    requires k < |ps|
    ensures Singed(e, ps[..k + 1])
         == if Singed(e, ps[..k]).hit then Singed(e, ps[..k]) else if Rammed(e, ps[k]) then e.(hit := true) else e
  {
    assert ps[..k + 1] == ps[..k] + [ps[k]];
    if n :| 0 <= n < k && Rammed(e, ps[..k][n]) {
      assert Rammed(e, ps[..k + 1][n]);
    }
    if Rammed(e, ps[k]) {
      assert Rammed(e, ps[..k + 1][k]);
    }
  }

  lemma {:induction false} SameAddresses(a: seq<Player>, b: seq<Player>)
    requires |a| == |b|
    requires forall i :: 0 <= i < |a| ==> a[i].addrSet == b[i].addrSet && a[i].addr == b[i].addr
    ensures Addresses(a) == Addresses(b)
  {
    if |a| > 0 { SameAddresses(a[..|a| - 1], b[..|b| - 1]); }
  }

  lemma SameStates(players: seq<Player>)
    ensures Addresses(AllNumbered(players)) == Addresses(players)
  {
    SameAddresses(AllNumbered(players), players);
  }

  lemma {:induction false} SameIds(a: seq<Player>, b: seq<Player>, id: nat)
    requires |a| == |b|
    requires forall i :: 0 <= i < |a| ==> a[i].id == b[i].id
    ensures IndexOf(a, id) == IndexOf(b, id)
  {
    if |a| > 0 { SameIds(a[1..], b[1..], id); }
  }
}
