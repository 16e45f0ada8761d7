/** What a game makes of an input packet, of a player who quits and of one who is kicked, field by field: who
    moves, what is fired, and who is told what. */
module Controls {
  import opened Protocol
  import opened World
  import opened Players
  import opened Wire
  import opened GameServer
  import opened GameRules
  import opened Contact
  import opened ServerManagers

  // The first of the players with this id.
  ghost predicate First(players: seq<Player>, id: nat, i: nat) {
    i < |players| && players[i].id == id && forall j :: 0 <= j < i ==> players[j].id != id
  }

  lemma {:induction false} FirstIsIndex(players: seq<Player>, id: nat, i: nat)
    requires First(players, id, i)
    ensures IndexOf(players, id) == i
  {
    if i > 0 {
      assert First(players[1..], id, i - 1);
      FirstIsIndex(players[1..], id, i - 1);
    }
  }

  lemma NobodyIsLength(players: seq<Player>, id: nat)
    requires forall p :: p in players ==> p.id != id
    ensures IndexOf(players, id) == |players|
  {
    if IndexOf(players, id) < |players| { assert players[IndexOf(players, id)] in players; }
  }

  // Five along each direction that is pressed, the highest tick, and nothing else but the input counters.
  predicate Steered(p: Player, p': Player, pkt: InputPacket) {
    && p'.x == p.x + (if pkt.inputs.right then 5 else 0) - (if pkt.inputs.left then 5 else 0)
    && p'.y == p.y + (if pkt.inputs.down then 5.0 else 0.0) - (if pkt.inputs.up then 5.0 else 0.0)
    && p'.lastProcessedTick >= p.lastProcessedTick && p'.lastProcessedTick >= pkt.tick
    && p'.lastProcessedTick in {p.lastProcessedTick, pkt.tick}
    && p' == p.(x := p'.x, y := p'.y, lastProcessedTick := p'.lastProcessedTick, inputs := p'.inputs)
  }

  // Everybody in the book is told once, in order, that the entity has appeared.
  predicate Announced(log: seq<Datagram>, addrs: seq<nat>, e: Entity) {
    |log| == |addrs| && forall a :: 0 <= a < |addrs| ==> log[a].addr == addrs[a] && Announces(log[a].packet, e)
  }

  function One(b: bool): nat { if b then 1 else 0 }

  // The world gains a plain shot if PRESSED is set and then a charged one if HOLD is, from this place.
  predicate Fired(w: World, w': World, i: Inputs, x: int, y: real) {
    var n, plain, charged := |w.entities|, One(i.pressed), One(i.hold);
    && |w'.entities| == n + plain + charged && w'.entities[..n] == w.entities
    && w' == w.(entities := w'.entities, nextId := w.nextId + plain + charged)
    && (i.pressed ==> Appears(w'.entities[n], w.nextId, 1, x + 25, y, 10) && Shaped(w'.entities[n]))
    && (i.hold ==> Appears(w'.entities[n + plain], w.nextId + plain, 4, x + 25, y, 12)
                   && Shaped(w'.entities[n + plain]))
  }

  // All are told of the plain shot, then of the charged one, as far as they were fired, and of nothing else.
  ghost predicate FiredLog(w: World, w': World, i: Inputs, addrs: seq<nat>, log: seq<Datagram>) {
    exists first, second :: FiredLogs(w, w', i, addrs, log, first, second)
  }

  predicate FiredLogs(w: World, w': World, i: Inputs, addrs: seq<nat>, log: seq<Datagram>,
                      first: seq<Datagram>, second: seq<Datagram>)
  {
    var n, plain := |w.entities|, One(i.pressed);
    && log == first + second && |w'.entities| == n + plain + One(i.hold)
    && (if i.pressed then Announced(first, addrs, w'.entities[n]) else first == [])
    && (if i.hold then Announced(second, addrs, w'.entities[n + plain]) else second == [])
  }

  // One shot.
  lemma ShootFacts(w: World, at: Point, charged: bool, addrs: seq<nat>)
    ensures var w', s := Act(w, Shoot(at, charged)), Shoot(at, charged);
      && |w'.entities| == |w.entities| + 1 && w'.entities[..|w.entities|] == w.entities
      && w' == w.(entities := w'.entities, nextId := w.nextId + 1)
      && Announced(SectionLog(w, s, addrs), addrs, w'.entities[|w.entities|])
      && Shaped(w'.entities[|w.entities|])
      && (if charged then Appears(w'.entities[|w.entities|], w.nextId, 4, at.x + 25, at.y, 12)
          else Appears(w'.entities[|w.entities|], w.nextId, 1, at.x + 25, at.y, 10))
  {
    hide FanoutAll;
    var e := NewShot(w.nextId, at, charged);
    assert Emitted(w, Shoot(at, charged)) == [SpawnPacket(e)];
    OneFanout(SpawnPacket(e), addrs);
  }

  // One shot, or none.
  lemma ShotOfRule(w: World, wanted: bool, at: Point, charged: bool, addrs: seq<nat>)
    ensures var w', log := Exec(w, ShotOf(wanted, at, charged)), RunLog(w, ShotOf(wanted, at, charged), addrs);
      if wanted then w' == Act(w, Shoot(at, charged)) && log == SectionLog(w, Shoot(at, charged), addrs)
      else w' == w && log == []
  {
    hide Exec, RunLog, Act, SectionLog;
    NoRun(w, addrs);
    RunNext(w, [], Shoot(at, charged), addrs);
    assert [] + [Shoot(at, charged)] == [Shoot(at, charged)];
  }

  lemma ShotsRule(w: World, i: Inputs, at: Point, addrs: seq<nat>)
    ensures Fired(w, Exec(w, ShotsOf(i, at)), i, at.x, at.y)
    ensures FiredLog(w, Exec(w, ShotsOf(i, at)), i, addrs, RunLog(w, ShotsOf(i, at), addrs))
  {
    hide Exec, RunLog, Appears, Shaped, Announced, Act, SectionLog;
    var plain, charged := ShotOf(i.pressed, at, false), ShotOf(i.hold, at, true);
    var w1 := Exec(w, plain);
    RunConcat(w, plain, charged, addrs);
    ShotOfRule(w, i.pressed, at, false, addrs);
    ShotOfRule(w1, i.hold, at, true, addrs);
    ShootFacts(w, at, false, addrs);
    ShootFacts(w1, at, true, addrs);
    var w2 := Exec(w1, charged);
    assert Exec(w, ShotsOf(i, at)) == w2;
    assert i.pressed ==> w2.entities[|w.entities|] == w1.entities[|w.entities|] by {
      assert w2.entities[..|w1.entities|] == w1.entities;
    }
    assert w2.entities[..|w.entities|] == w2.entities[..|w1.entities|][..|w.entities|];
    assert FiredLogs(w, w2, i, addrs, RunLog(w, plain, addrs) + RunLog(w1, charged, addrs),
                     RunLog(w, plain, addrs), RunLog(w1, charged, addrs));
  }

  /** An input packet of a known player: the player moves by five in each direction pressed, a plain shot is
      fired from there if PRESSED is set and then a charged one if HOLD is, both with the next ids; everybody
      whose address is known is told of exactly these; nothing else of the game changes. */
  lemma InputRule(g: GameValue, pkt: InputPacket, i: nat)
    requires First(g.players, pkt.playerId, i)
    ensures var g', addrs := Handles(g, pkt), Addresses(g.players);
      && |g'.players| == |g.players| && g'.status == g.status
      && (forall j :: 0 <= j < |g.players| && j != i ==> g'.players[j] == g.players[j])
      && Steered(g.players[i], g'.players[i], pkt)
      && Fired(g.world, g'.world, pkt.inputs, g'.players[i].x, g'.players[i].y)
      && FiredLog(g.world, g'.world, pkt.inputs, addrs, HandleLog(g, pkt))
  {
    hide Exec, RunLog, ShotsOf, Fired, FiredLog, Addresses;
    FirstIsIndex(g.players, pkt.playerId, i);
    var ps := AfterInput(g.players, pkt);
    SameAddresses(g.players, ps);
    ShotsRule(g.world, pkt.inputs, ps[i].Pos(), Addresses(g.players));
  }

  /** An input packet of an unknown player changes nothing, and nobody is told anything. */
  lemma UnknownInputRule(g: GameValue, pkt: InputPacket)
    requires forall p :: p in g.players ==> p.id != pkt.playerId
    ensures Handles(g, pkt) == g && HandleLog(g, pkt) == []
  {
    NobodyIsLength(g.players, pkt.playerId);
    NoRun(g.world, Addresses(g.players));
  }

  // ---------- collisions ----------

  /** After the collision section of a game, no player has a point of its 60 by 30 box in common with a live
      enemy or boss shot. */
  lemma NobodyInContact(players: seq<Player>, run: seq<Section>, i: nat, k: nat)
    requires k < |players| && i < |Exec(START, run + [Collide(Positions(players))]).entities|
    ensures var e, p := Exec(START, run + [Collide(Positions(players))]).entities[i], players[k];
            Live(e, {2, 3, 11}) ==> !Meet(p.x, p.y, 60, 30, e.x, e.y, e.width, e.height)
  {
    hide Exec, Meet, Share;
    NoContactLeft(run, Positions(players));
    var es := Exec(START, run + [Collide(Positions(players))]).entities;
    assert Live(es[i], {2, 3, 11}) ==> !Hits(es[i], Positions(players)[k]);
  }

  // ---------- joining and leaving ----------

  /** A player joins last, at (400, 225), with no address, nothing handled and no state sent; nothing else of
      the game changes. */
  lemma JoinRule(g: GameValue, id: nat)
    ensures var g' := Joins(g, id);
      && |g'.players| == |g.players| + 1 && g'.players[..|g.players|] == g.players
      && g' == g.(players := g'.players)
      && var p := g'.players[|g.players|];
         && p.id == id && p.x == 400 && p.y == 225.0 && !p.addrSet
         && p.lastProcessedTick == 0 && p.stateSequence == 0
         && p.inputs.empty && p.inputs.received == 0 && p.inputs.lost == 0
  {
  }

  lemma {:induction false} WithoutIs(players: seq<Player>, id: nat)
    ensures forall p :: p in Without(players, id) <==> p in players && p.id != id
  {
    if |players| > 0 {
      var init, last := players[..|players| - 1], players[|players| - 1];
      WithoutIs(init, id);
      assert players == init + [last];
    }
  }

  /** A player who quits is no longer in the game, and nobody else's record changes. Everybody who stays and
      whose address is known is told once that this player has gone; nobody is told anything else. */
  lemma QuitRule(g: GameValue, id: nat)
    ensures var g', log := Quits(g, id), QuitLog(g, id);
      && (forall p :: p in g'.players <==> p in g.players && p.id != id)
      && g' == g.(players := g'.players)
      && |log| == |Addresses(g'.players)|
      && forall a :: 0 <= a < |log| ==>
           log[a].addr == Addresses(g'.players)[a] && log[a].packet.PlayerDisconnect? && log[a].packet.leaver == id
  {
    WithoutIs(g.players, id);
  }

  /** A kick is a quit, except that a player whose address is known is first told so itself. */
  lemma KickRule(g: GameValue, id: nat)
    ensures (forall p :: p in g.players ==> p.id != id) ==> KickLog(g, id) == QuitLog(g, id)
    ensures forall i: nat :: First(g.players, id, i) ==>
              if g.players[i].addrSet
              then && |KickLog(g, id)| == 1 + |QuitLog(g, id)| && KickLog(g, id)[1..] == QuitLog(g, id)
                   && KickLog(g, id)[0].addr == g.players[i].addr && KickLog(g, id)[0].packet.YouHaveBeenKicked?
              else KickLog(g, id) == QuitLog(g, id)
  {
    hide QuitLog;
    if forall p :: p in g.players ==> p.id != id { NobodyIsLength(g.players, id); }
    forall i: nat | First(g.players, id, i) ensures IndexOf(g.players, id) == i { FirstIsIndex(g.players, id, i); }
  }
}
