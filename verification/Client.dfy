/** The client's in-game object, updated in place by key presses and by the packets it receives. */
module Client {
  import opened Basics
  import opened Protocol
  import opened Mirror
  import opened Screen
  import P = Prediction
  import L = LossWindow

  class RTypeClient {
    const myId: nat
    var status: InGameStatus
    var players: map<nat, Position>
    var entities: Entities<Point>
    var score: int
    var bossHP: int
    var bossMaxHP: int

    var tick: nat
    var pending: seq<InputPacket>
    // What has been handed to the UDP client, in order.
    var sent: seq<InputPacket>

    var lossPercentage: real
    var lastServerSeq: nat
    var isFirstServerPacket: bool
    var packetEvents: seq<L.Event>

    // The parts of the client that the modules Screen, Prediction and LossWindow speak of.
    ghost function Screen(): Shown
      reads this
    {
      Shown(players - {myId}, entities, score, bossHP, bossMaxHP, status)
    }

    ghost function Own(): Option<Position>
      reads this
    {
      if myId in players then Some(players[myId]) else None
    }

    ghost function Predictor(): P.Predictor
      reads this
    {
      P.Predictor(tick,
                  if myId in players then Some(Point(players[myId].x, players[myId].y)) else None,
                  pending)
    }

    ghost function Meter(): L.Meter
      reads this
    {
      L.Meter(isFirstServerPacket, lastServerSeq, packetEvents)
    }

    // The first tick is the server's clock; the hello makes the client's address known.
    constructor (playerId: nat, serverTimeMs: nat)
      ensures myId == playerId && Screen() == BLANK
      ensures Predictor() == P.Live(serverTimeMs, playerId, []) && Meter() == L.NEW_METER
      ensures players == map[] && lossPercentage == 0.0
      ensures sent == [InputPacket(playerId, 0, NO_INPUTS)]
    {
      myId, status := playerId, PLAYING;
      players, entities := map[], map[];
      score, bossHP, bossMaxHP := 0, 0, 1000;
      tick, pending := serverTimeMs, [];
      lossPercentage, lastServerSeq, isFirstServerPacket, packetEvents := 0.0, 0, true, [];
      sent := [InputPacket(playerId, 0, NO_INPUTS)];
    }

    // ---------- prediction ----------

    method ApplyInput(inputs: Inputs)
      modifies this`players
      ensures myId !in old(players) ==> players == old(players)
      ensures myId in old(players) ==>
                var p := old(players)[myId];
                var at := Plus(Point(p.x, p.y), Shift(inputs));
                players == old(players)[myId := Position(at.x, at.y, p.vy)]
    {
      if myId !in players {
        return;
      }
      var p := players[myId];
      if inputs.up { p := p.(y := p.y - 5.0); }
      if inputs.down { p := p.(y := p.y + 5.0); }
      if inputs.left { p := p.(x := p.x - 5); }
      if inputs.right { p := p.(x := p.x + 5); }
      players := players[myId := p];
    }

    // One round of input handling, for the keys held down now.
    method HandleInput(inputs: Inputs)
      modifies this`players, this`tick, this`pending, this`sent
      ensures Predictor() == P.Issue(old(Predictor()), myId, inputs)
      ensures sent == old(sent) + [InputPacket(myId, old(tick), inputs)]
      ensures players.Keys == old(players).Keys && Screen() == old(Screen())
    {
      var packet := InputPacket(myId, tick, inputs);
      tick := tick + 1;
      if inputs != NO_INPUTS {
        ApplyInput(inputs);
        pending := pending + [packet];
      }
      sent := sent + [packet];
    }

    method Acknowledge(ack: nat)
      modifies this`pending
      ensures pending == P.DropAcked(old(pending), ack)
    {
      while |pending| > 0 && pending[0].tick <= ack
        invariant P.DropAcked(pending, ack) == P.DropAcked(old(pending), ack)
        decreases |pending|
      {
        pending := pending[1..];
      }
    }

    method Replay()
      requires myId in players
      modifies this`players
      ensures var p := old(players)[myId];
              var at := Plus(Point(p.x, p.y), Displacement(pending));
              players == old(players)[myId := Position(at.x, at.y, p.vy)]
    {
      ghost var p := players[myId];
      NoDisplacement(Point(p.x, p.y));
      for i := 0 to |pending|
        invariant var at := Plus(Point(p.x, p.y), Displacement(pending[..i]));
                  players == old(players)[myId := Position(at.x, at.y, p.vy)]
      {
        P.PressMoves(Point(p.x, p.y), pending[..i], pending[i]);
        assert pending[..i] + [pending[i]] == pending[..i + 1];
        ApplyInput(pending[i].inputs);
      }
      assert pending[..|pending|] == pending;
    }

    // ---------- packet loss ----------

    method RecordArrival(sequence: nat, nowMs: nat)
      requires nowMs < L.WORD
      modifies this`packetEvents, this`lastServerSeq, this`isFirstServerPacket, this`lossPercentage
      ensures Meter() == L.Take(old(Meter()), sequence, nowMs)
      ensures lossPercentage == L.LossPercent(packetEvents) && L.Reports(lossPercentage, packetEvents)
    {
      ghost var m := Meter();
      if isFirstServerPacket {
        lastServerSeq := sequence;
        packetEvents := packetEvents + [L.Event(false, nowMs)];
        isFirstServerPacket := false;
      } else if sequence > lastServerSeq {
        var lostCount := sequence - lastServerSeq - 1;
        for i := 0 to lostCount
          invariant packetEvents == m.events + L.LostEvents(i, nowMs)
          invariant lastServerSeq == m.lastSeq && !isFirstServerPacket
        {
          packetEvents := packetEvents + [L.Event(true, nowMs)];
        }
        packetEvents := packetEvents + [L.Event(false, nowMs)];
        lastServerSeq := sequence;
      }
      assert packetEvents == m.events + L.EventsFor(m, sequence, nowMs);
      ForgetBefore(L.Cutoff(nowMs));
      CountLosses();
      L.ReportsLoss(packetEvents);
    }

    method ForgetBefore(cutoff: nat)
      modifies this`packetEvents
      ensures packetEvents == L.Expire(old(packetEvents), cutoff)
    {
      while |packetEvents| > 0 && packetEvents[0].at < cutoff
        invariant L.Expire(packetEvents, cutoff) == L.Expire(old(packetEvents), cutoff)
        decreases |packetEvents|
      {
        packetEvents := packetEvents[1..];
      }
    }

    method CountLosses()
      modifies this`lossPercentage
      ensures lossPercentage == L.LossPercent(packetEvents)
    {
      var lost := 0;
      for i := 0 to |packetEvents|
        invariant lost == L.CountLost(packetEvents[..i])
      {
        assert packetEvents[..i + 1][..i] == packetEvents[..i];
        if packetEvents[i].lost { lost := lost + 1; }
      }
      assert packetEvents[..|packetEvents|] == packetEvents;
      lossPercentage := if |packetEvents| == 0 then 0.0 else lost as real / |packetEvents| as real * 100.0;
    }

    // ---------- packets ----------

    // A state packet of some player. After the own player's death its states are ignored.
    method OnPlayerState(id: nat, sequence: nat, ack: nat, at: Point, nowMs: nat)
      requires nowMs < L.WORD
      modifies this`players, this`pending, this`packetEvents, this`lastServerSeq
      modifies this`isFirstServerPacket, this`lossPercentage
      ensures id == myId && status != GAME_OVER ==>
                && Predictor() == P.Reconcile(old(Predictor()), ack, at)
                && Meter() == L.Take(old(Meter()), sequence, nowMs)
                && L.Reports(lossPercentage, packetEvents)
                && players.Keys == old(players).Keys + {id}
                && forall o :: o in old(players) && o != myId ==> players[o] == old(players)[o]
      ensures id == myId && status == GAME_OVER ==> players == old(players)
      ensures id != myId ==> players == Placed(old(players), id, at)
      ensures id != myId || status == GAME_OVER ==>
                pending == old(pending) && Meter() == old(Meter()) && lossPercentage == old(lossPercentage)
                && Own() == old(Own())
      ensures Screen().others == if id == myId then old(Screen()).others else Placed(old(Screen()).others, id, at)
    {
      hide L.Take, L.Reports, P.DropAcked, Displacement;
      ghost var before := players;
      if id == myId {
        if status == GAME_OVER {
          return;
        }
        RecordArrival(sequence, nowMs);
        players := players[id := Position(at.x, at.y, 0.0)];
        Acknowledge(ack);
        Replay();
      } else {
        var vy := 0.0;
        if id in players {
          vy := at.y - players[id].y;
        }
        players := players[id := Position(at.x, at.y, vy)];
        PlacedAside(before, id, at, myId);
      }
    }

    // A sync: keep the client's own entities, forget the rest, load what the packet holds.
    method OnGlobalStateSync(entries: seq<Entry<Point>>)
      modifies this`entities
      ensures entities == ApplySync(old(entities), entries)
    {
      var keys := entities.Keys;
      var localEntities: Entities<Point> := map[];
      while keys != {}
        invariant keys <= entities.Keys
        invariant localEntities == map id | id in entities && id !in keys && id >= FIRST_LOCAL_ID :: entities[id]
        decreases keys
      {
        var id :| id in keys;
        keys := keys - {id};
        if id >= FIRST_LOCAL_ID {
          localEntities := localEntities[id := entities[id]];
        }
      }
      entities := localEntities;
      for i := 0 to |entries|
        invariant entities == Load(LocalOnly(old(entities)), entries[..i])
      {
        assert entries[..i + 1][..i] == entries[..i];
        entities := entities[entries[i].id := Seen(entries[i].kind, entries[i].pos)];
      }
      assert entries[..|entries|] == entries;
    }

    method OnEntityDestroy(id: nat)
      modifies this`entities, this`score
      ensures entities == old(entities) - {id}
      ensures score == old(score) + Reward(old(entities), id)
    {
      if id in entities {
        if entities[id].kind == 2 { score := score + 50; }
        else if entities[id].kind == 3 { score := score + 100; }
      }
      entities := entities - {id};
    }

    /** One packet from the server. What is shown changes as module Screen says; a snapshot of the own
        player reconciles the prediction and is metered, unless the game is over; its disconnect takes it
        away; the rest touches neither. */
    method OnPacket(p: Packet, nowMs: nat)
      requires nowMs < L.WORD
      modifies this
      ensures Screen() == After(old(Screen()), myId, p)
      ensures tick == old(tick) && sent == old(sent)
      ensures StateOf(p, myId) && old(status) != GAME_OVER ==>
                && Predictor() == P.Reconcile(old(Predictor()), p.lastProcessedTick, p.pos)
                && Meter() == L.Take(old(Meter()), p.sequence, nowMs)
                && L.Reports(lossPercentage, packetEvents)
      ensures !(StateOf(p, myId) && old(status) != GAME_OVER) ==>
                && pending == old(pending) && Meter() == old(Meter()) && lossPercentage == old(lossPercentage)
                && Own() == if EndOf(p, myId) then None else old(Own())
    {
      hide P.Reconcile, L.Take, L.Reports, ApplySync, Fit, Placed, Reward;
      if p.PlayerState? {
        OnPlayerState(p.playerId, p.sequence, p.lastProcessedTick, p.pos, nowMs);
      } else {
        OnNews(p);
      }
    }

    // Any packet but the state of a player.
    method OnNews(p: Packet)
      requires !p.PlayerState?
      modifies this`entities, this`players, this`status, this`score, this`bossHP, this`bossMaxHP
      ensures Screen() == After(old(Screen()), myId, p)
      ensures Own() == if EndOf(p, myId) then None else old(Own())
    {
      hide ApplySync, Fit, Reward;
      match p
      case EntitySpawn(id, kind, at) => entities := entities[id := Seen(kind, at)];
      case EntityUpdate(id, at) =>
        if id in entities { entities := entities[id := entities[id].(pos := at)]; }
      case EntityDestroy(id) => OnEntityDestroy(id);
      case GlobalStateSync(entries) => OnGlobalStateSync(Fit(entries));
      case PlayerDisconnect(id) =>
        players := players - {id};
        if id == myId { status := GAME_OVER; }
      case YouHaveBeenKicked => status := KICKED;
      case BossState(hp, maxHp) => bossHP, bossMaxHP := hp, maxHp;
    }

    /** The receive loop: packet after packet, each at the time the clock then shows. */
    method Update(packets: seq<Packet>, clocks: seq<nat>)
      requires |clocks| == |packets| && forall now :: now in clocks ==> now < L.WORD
      modifies this
      ensures Screen() == AfterAll(old(Screen()), myId, packets)
      ensures entities == ApplyAll(old(entities), packets)
    {
      hide After;
      ghost var before := Screen();
      for i := 0 to |packets|
        invariant Screen() == AfterAll(before, myId, packets[..i])
      {
        AfterNext(before, myId, packets, i);
        assert clocks[i] in clocks;
        OnPacket(packets[i], clocks[i]);
      }
      assert packets[..|packets|] == packets;
      hide AfterAll;
      EntitiesAfter(before, myId, packets);
    }
  }

  lemma PlacedAside(players: map<nat, Position>, id: nat, at: Point, me: nat)
    requires id != me
    ensures Placed(players, id, at) - {me} == Placed(players - {me}, id, at)
  {
  }

  lemma NoDisplacement(p: Point)
    ensures Plus(p, Displacement([])) == p
  {
    assert Displacement([]) == Point(0, 0.0);
  }
}
