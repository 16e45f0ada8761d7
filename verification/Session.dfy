/** A game and one of its clients, object to object: what the game queues, the client takes, and the
    client's picture stays that of the game. */
module Session {
  import opened Protocol
  import opened World
  import opened Mirror
  import opened Players
  import opened Wire
  import opened Replication
  import G = GameServer
  import C = Client
  import L = LossWindow

  // No sync of the run is cut.
  ghost predicate AllFit(w: World, run: seq<Section>) {
    forall i :: 0 <= i < |run| ==> Harmless(Exec(w, run[..i]), run[i])
  }

  lemma {:induction false} RunMirrors(history: seq<Section>, run: seq<Section>, m: Entities<Point>)
    requires Mirrors(m, Exec(START, history).entities)
    requires AllFit(Exec(START, history), run)
    ensures Mirrors(ApplyAll(m, Emission(Exec(START, history), run)), Exec(START, history + run).entities)
    ensures Exec(START, history + run) == Exec(Exec(START, history), run)
  {
    hide Act, Emitted, Mirrors;
    ExecConcat(START, history, run);
    if |run| > 0 {
      var w, before, s := Exec(START, history), run[..|run| - 1], run[|run| - 1];
      assert forall i :: 0 <= i < |before| ==> run[..i] == before[..i];
      RunMirrors(history, before, m);
      var w' := Exec(w, before);
      assert (history + run)[..|history + run| - 1] == history + before;
      ReachableDistinct(history + before);
      ReachableDistinct(history + run);
      SectionMirrors(w', s, ApplyAll(m, Emission(w, before)));
      ApplyAllConcat(m, Emission(w, before), Emitted(w', s));
    } else {
      assert history + run == history;
    }
  }

  lemma {:induction false} StatesIgnored(m: Entities<Point>, players: seq<Player>)
    ensures ApplyAll(m, StatePackets(players)) == m
  {
    if |players| > 0 {
      var rest, last := StatePackets(players[..|players| - 1]), players[|players| - 1];
      StatesIgnored(m, players[..|players| - 1]);
      if last.addrSet {
        assert (rest + [StatePacket(last)])[..|rest|] == rest;
      }
    }
  }

  // What one update queues: its sections, with the states of the players between them.
  function UpdateLog(w: World, before: seq<Section>, players: seq<Player>, rest: seq<Section>, addrs: seq<nat>)
    : seq<Datagram>
  {
    RunLog(w, before, addrs) + FanoutAll(StatePackets(players), addrs) + RunLog(Exec(w, before), rest, addrs)
  }

  // What one update queues for one address.
  lemma InboxOfUpdate(w: World, before: seq<Section>, players: seq<Player>, rest: seq<Section>, addrs: seq<nat>,
                      addr: nat, k: nat)
    requires Once(addrs, addr, k)
    ensures Inbox(UpdateLog(w, before, players, rest, addrs), addr)
         == Emission(w, before) + StatePackets(players) + Emission(Exec(w, before), rest)
  {
    hide Exec, RunLog, FanoutAll, Emission, StatePackets;
    var a, b := RunLog(w, before, addrs), FanoutAll(StatePackets(players), addrs);
    var c := RunLog(Exec(w, before), rest, addrs);
    InboxConcat(a + b, c, addr);
    InboxConcat(a, b, addr);
    InboxOfRun(w, before, addrs, addr);
    InboxFanoutAll(StatePackets(players), addrs, addr, k);
    InboxOfRun(Exec(w, before), rest, addrs, addr);
  }

  lemma UpdateMirrors(history: seq<Section>, before: seq<Section>, players: seq<Player>, rest: seq<Section>,
                      m: Entities<Point>)
    requires Mirrors(m, Exec(START, history).entities)
    requires AllFit(Exec(START, history), before) && AllFit(Exec(START, history + before), rest)
    ensures var w := Exec(START, history);
            Mirrors(ApplyAll(m, Emission(w, before) + StatePackets(players) + Emission(Exec(w, before), rest)),
                    Exec(START, history + before + rest).entities)
  {
    hide Exec, Emission, StatePackets, Mirrors, AllFit;
    var w := Exec(START, history);
    var a, b, c := Emission(w, before), StatePackets(players), Emission(Exec(w, before), rest);
    ApplyAllConcat(m, a + b, c);
    ApplyAllConcat(m, a, b);
    RunMirrors(history, before, m);
    StatesIgnored(ApplyAll(m, a), players);
    RunMirrors(history + before, rest, ApplyAll(m, a));
  }

  /** The sections of an update follow one another as the phases of module World allow: after any history
      between updates, the history goes on being one of the game loop and is between updates again. */
  lemma UpdateIsLegal(history: seq<Section>, players: seq<Player>, sin: real -> real, enemyDue: bool, spawnY: int,
                      syncDue: bool)
    requires Legal(history) && PhaseOf(history) == AtMove
    ensures var run := history + G.Game.Before(players) + G.Game.Rest(sin, enemyDue, spawnY, syncDue);
            Legal(run) && PhaseOf(run) == AtMove
  {
    hide Legal, PhaseOf;
    var h1 := LegalStep(history, Move);
    var h2 := LegalStep(h1, Collide(Positions(players)));
    var h3 := LegalStep(h2, Level(sin));
    var h4 := LegalStep(h3, SpawnBoss);
    var h5 := LegalStep(h4, BossFire);
    var h6 := LegalStep(h5, if enemyDue then SpawnEnemy(spawnY) else Skip);
    var h7 := LegalStep(h6, if syncDue then Sync else Skip);
    assert h7 == history + G.Game.Before(players) + G.Game.Rest(sin, enemyDue, spawnY, syncDue);
  }

  lemma LegalStep(run: seq<Section>, s: Section) returns (more: seq<Section>)
    requires Legal(run) && Allowed(PhaseOf(run), s)
    ensures more == run + [s] && Legal(more) && PhaseOf(more) == After(PhaseOf(run), s)
  {
    more := run + [s];
    LegalNext(run, s);
  }

  /** One update of a game, delivered without loss to a client whose address is known and whose picture
      is true: it is true again afterwards. */
  method UpdateAndDeliver(game: G.Game, udp: G.Outbox, client: C.RTypeClient, addr: nat, ghost k: nat,
                          ghost history: seq<Section>, sin: real -> real, enemyDue: bool, spawnY: int, syncDue: bool,
                          nowMs: nat)
    requires game.status == G.PLAYING && game.State() == Exec(START, history)
    requires Mirrors(client.entities, game.entities)
    requires Once(Addresses(game.players), addr, k) && nowMs < L.WORD
    requires var w := game.State();
             var before, rest := G.Game.Before(game.players), G.Game.Rest(sin, enemyDue, spawnY, syncDue);
             AllFit(Exec(w, before), rest)
    modifies game, udp, client
    ensures game.State() == Exec(START, history + G.Game.Before(old(game.players))
                                        + G.Game.Rest(sin, enemyDue, spawnY, syncDue))
    ensures Mirrors(client.entities, game.entities)
  {
    assert AllFit(game.State(), G.Game.Before(game.players));
    hide Exec, Emission, RunLog, FanoutAll, StatePackets, Addresses, Mirrors, Once, AllFit, Inbox, Fanout;
    ghost var before, rest := G.Game.Before(game.players), G.Game.Rest(sin, enemyDue, spawnY, syncDue);
    ghost var w, players, addrs := game.State(), game.players, Addresses(game.players);
    var queued := |udp.log|;
    ghost var log := udp.log;
    game.Update(udp, sin, enemyDue, spawnY, syncDue);
    Regroup(log, RunLog(w, before, addrs), FanoutAll(StatePackets(players), addrs),
            RunLog(Exec(w, before), rest, addrs));
    assert udp.log[queued..] == UpdateLog(w, before, players, rest, addrs);
    InboxOfUpdate(w, before, players, rest, addrs, addr, k);
    ExecConcat(START, history, before);
    ExecConcat(START, history + before, rest);
    UpdateMirrors(history, before, players, rest, client.entities);
    var packets := Inbox(udp.log[queued..], addr);
    client.Update(packets, seq(|packets|, _ => nowMs));
  }

  lemma Regroup<T>(log: seq<T>, a: seq<T>, b: seq<T>, c: seq<T>)
    ensures (log + a + b + c)[|log|..] == a + b + c
  {
  }
}
