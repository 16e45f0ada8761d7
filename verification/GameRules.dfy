/** The rules of the game in numbers: what appears, how it moves, when the boss comes and shoots, and what
    a hit costs it. */
module GameRules {
  import opened Protocol
  import opened World
  import opened Collisions
  import opened BossRun

  // ---------- motion ----------

  /** Every entity moves by its velocity. It is destroyed, and the others are told, if it was marked or is
      now off the screen; otherwise it stays and the others are told where it is. */
  lemma MoveRule(w: World, i: nat)
    requires i < |w.entities|
    ensures |Emitted(w, Move)| == |w.entities|
    ensures var e, p := w.entities[i], Emitted(w, Move)[i];
            var x, y := e.x + e.vx, e.y + e.vy;
            if e.hit || x < -20 || x > 1920
            then p.EntityDestroy? && p.id == e.id
            else p.EntityUpdate? && p.id == e.id && p.at.x == x && p.at.y == y
                 && e.(x := x, y := y) in Act(w, Move).entities
  {
    hide MoveAll;
    var e := w.entities[i];
    if !Leaves(Moved(e)) { StayerStays(w.entities, i); }
  }

  lemma {:induction false} StayerStays(es: seq<Entity>, i: nat)
    requires i < |es| && !Leaves(Moved(es[i]))
    ensures Moved(es[i]) in MoveAll(es)
  {
    hide Leaves, Moved;
    if i < |es| - 1 { StayerStays(es[..|es| - 1], i); }
  }

  function Levels(run: seq<Section>): nat {
    if |run| == 0 then 0
    else
      var before := Levels(run[..|run| - 1]);
      if run[|run| - 1].Level? then before + 1 else before
  }

  lemma ActTakes(w: World, s: Section)
    ensures Act(w, s).time == w.time + if s.Level? then 16 else 0
  {
    hide Volleys, MoveAll, Spawned, BossFires, SteerAll;
    if s.Collide? { VolleysTakeNoTime(w, |w.entities|); }
  }

  lemma {:induction false} VolleysTakeNoTime(w: World, n: nat)
    requires n <= |w.entities|
    ensures Volleys(w, n).world.time == w.time
  {
    hide FirstTarget;
    if n > 0 { VolleysTakeNoTime(w, n - 1); }
  }

  /** The game's clock shows 16 ms for every update, and nothing else moves it. */
  lemma {:induction false} ClockRule(run: seq<Section>)
    ensures Exec(START, run).time == 16 * Levels(run)
  {
    hide Act;
    if |run| > 0 {
      ClockRule(run[..|run| - 1]);
      ActTakes(Exec(START, run[..|run| - 1]), run[|run| - 1]);
    }
  }

  /** A boss comes in from the right at speed 2 and then only goes up and down: the second one faster and
      further than the first. Enemies weave after a minute, each with its own phase; nothing else of any
      entity changes. `t` is the new game time in seconds. */
  lemma SteerRule(w: World, sin: real -> real, i: nat, t: real)
    requires i < |w.entities| && t * 1000.0 == (w.time + 16) as real
    ensures |Act(w, Level(sin)).entities| == |w.entities|
    ensures var e, e' := w.entities[i], Act(w, Level(sin)).entities[i];
      && e' == e.(vx := e'.vx, vy := e'.vy)
      && (e.kind == 10 && e.x > 1500 ==> e'.vx == -2 && e'.vy == 0.0)
      && (e.kind == 10 && e.x <= 1500 ==> e'.vx == 0)
      && (e.kind == 10 && e.x <= 1500 && w.bossLevel == 3 ==> e'.vy == sin(t * 4.0) * 8.0)
      && (e.kind == 10 && e.x <= 1500 && w.bossLevel != 3 ==> e'.vy == sin(t) * 3.0)
      && (e.kind in {2, 3} && t > 60.0 ==> e'.vx == e.vx && e'.vy == sin(t * 2.0 + e.id as real) * 5.0)
      && (e.kind in {2, 3} && t <= 60.0 ==> e' == e)
      && (e.kind !in {2, 3, 10} ==> e' == e)
  {
    assert t == Seconds(w.time + 16);
    assert t > 60.0 <==> w.time + 16 > 60000;
  }

  // ---------- what appears ----------

  // A new entity of this kind, unmarked and with this id, flies level at this speed.
  predicate Appears(e: Entity, id: nat, kind: nat, x: int, y: real, vx: int) {
    e.id == id && e.kind == kind && e.x == x && e.y == y && e.vx == vx && e.vy == 0.0 && !e.hit
  }

  // The list gains these at its end, and every one of them is announced, with its kind and place, in order.
  predicate Gains(w: World, s: Section, n: nat) {
    var es' := Act(w, s).entities;
    && |es'| == |w.entities| + n && es'[..|w.entities|] == w.entities
    && Act(w, s).nextId == w.nextId + n
    && |Emitted(w, s)| >= n
    && forall k :: 0 <= k < n ==> Announces(Emitted(w, s)[k], es'[|w.entities| + k])
  }

  predicate Announces(p: Packet, e: Entity) {
    p.EntitySpawn? && p.id == e.id && p.kind == e.kind && p.at.x == e.x && p.at.y == e.y
  }

  /** A shot appears 25 in front of where its player is: a plain one at speed 10, a charged one at 12. */
  lemma ShotRule(w: World, at: Point, charged: bool)
    ensures Gains(w, Shoot(at, charged), 1) && |Emitted(w, Shoot(at, charged))| == 1
    ensures var e := Act(w, Shoot(at, charged)).entities[|w.entities|];
      && (!charged ==> Appears(e, w.nextId, 1, at.x + 25, at.y, 10))
      && (charged ==> Appears(e, w.nextId, 4, at.x + 25, at.y, 12))
  {
  }

  /** An enemy appears at the right edge at the given height: a slow one in the first 30 seconds, a fast one
      after them. */
  lemma EnemyRule(w: World, y: int)
    ensures Gains(w, SpawnEnemy(y), 1) && |Emitted(w, SpawnEnemy(y))| == 1
    ensures var e := Act(w, SpawnEnemy(y)).entities[|w.entities|];
      && (w.time <= 30000 ==> Appears(e, w.nextId, 2, 1920, y as real, -5))
      && (w.time > 30000 ==> Appears(e, w.nextId, 3, 1920, y as real, -8))
  {
  }

  // ---------- the boss ----------

  /** The level rises to 1 after ten seconds and from 2 to 3 once the clock has passed the first boss's end;
      with it a boss appears, with 1000 or 2000 of health, and all are told both. Otherwise nothing happens. */
  lemma BossRule(w: World)
    ensures var w' := Act(w, SpawnBoss);
      if (w.bossLevel == 0 && w.time > 10000) || (w.bossLevel == 2 && w.time > w.bossDeath)
      then && Gains(w, SpawnBoss, 1) && Appears(w'.entities[|w.entities|], w.nextId, 10, 1600, 400.0, -2)
           && w'.bossLevel == w.bossLevel + 1 && w'.bossHP == 1000 * (1 + w.bossLevel / 2)
           && |Emitted(w, SpawnBoss)| == 2 && Emitted(w, SpawnBoss)[1] == BossState(w'.bossHP, w'.bossHP)
      else w' == w && Emitted(w, SpawnBoss) == []
  {
    assert w.entities + [] == w.entities;
  }

  // The entity at index b is the first boss of the list.
  ghost predicate FirstBoss(es: seq<Entity>, b: nat) {
    b < |es| && es[b].kind == 10 && forall i :: 0 <= i < b ==> es[i].kind != 10
  }

  lemma {:induction false} FindsFirst(es: seq<Entity>, i: nat, b: nat)
    requires i <= b && FirstBoss(es, b)
    ensures FindBoss(es, i) == b
    decreases b - i
  {
    if i < b { FindsFirst(es, i + 1, b); }
  }

  lemma {:induction false} FindsNone(es: seq<Entity>, i: nat)
    requires i <= |es| && forall e :: e in es ==> e.kind != 10
    ensures FindBoss(es, i) == |es|
    decreases |es| - i
  {
    if i < |es| { FindsNone(es, i + 1); }
  }

  // The k-th of n shots of a boss: 80 below it, to the left at speed 15; three spread by 5.
  predicate BossShotAt(e: Entity, boss: Entity, id: nat, n: nat, k: nat) {
    && e.id == id + k && e.kind == 11 && e.x == boss.x && e.y == boss.y + 80.0 && e.vx == -15 && !e.hit
    && e.vy == if n == 1 then 0.0 else 5.0 * (k as real - 1.0)
  }

  // How long the boss waits between shots at a level, and how many it fires.
  function Pause(level: nat): int { if level == 1 then 1500 else 1000 }

  function Barrels(level: nat): nat { if level == 1 then 1 else 3 }

  /** At levels 1 and 3 the first boss in the list fires when its pause is over: one shot level at level 1,
      three spread out at level 3. Without a boss, or before, nothing happens. */
  lemma BossFireRule(w: World, b: nat)
    requires FirstBoss(w.entities, b) || (b == |w.entities| && forall e :: e in w.entities ==> e.kind != 10)
    ensures var w', n := Act(w, BossFire), Barrels(w.bossLevel);
      if b < |w.entities| && w.bossLevel in {1, 3} && w.time - w.lastBossShot > Pause(w.bossLevel)
      then && Gains(w, BossFire, n) && |Emitted(w, BossFire)| == n && w'.lastBossShot == w.time
           && forall j :: |w.entities| <= j < |w'.entities| ==>
                BossShotAt(w'.entities[j], w.entities[b], w.nextId, n, j - |w.entities|)
      else w' == w && Emitted(w, BossFire) == []
  {
    assert w.entities + [] == w.entities;
    if b < |w.entities| { FindsFirst(w.entities, 0, b); } else { FindsNone(w.entities, 0); }
  }

  // The boss fires in section i of a run.
  ghost predicate FiresAt(run: seq<Section>, i: nat)
    requires i < |run|
  {
    run[i].BossFire? && |Act(Exec(START, run[..i]), run[i]).entities| > |Exec(START, run[..i]).entities|
  }

  lemma LastShotKept(w: World, s: Section)
    ensures Act(w, s).lastBossShot == w.lastBossShot
         || (s.BossFire? && BossFires(w) && Act(w, s).lastBossShot == w.time)
  {
    hide Volleys, MoveAll, SteerAll, BossFires, BossShots;
    if s.Collide? { VolleysFireNothing(w, |w.entities|); }
  }

  lemma {:induction false} VolleysFireNothing(w: World, n: nat)
    requires n <= |w.entities|
    ensures Volleys(w, n).world.lastBossShot == w.lastBossShot
  {
    hide FirstTarget;
    if n > 0 { VolleysFireNothing(w, n - 1); }
  }

  lemma FiresMeans(w: World)
    ensures |Act(w, BossFire).entities| > |w.entities| <==> BossFires(w)
    ensures BossFires(w) ==> Act(w, BossFire).lastBossShot == w.time
    ensures BossFires(w) ==> w.bossLevel in {1, 3} && w.time - w.lastBossShot > Pause(w.bossLevel)
  {
    hide FindBoss;
  }

  lemma {:induction false} LastShotSince(run: seq<Section>, i: nat, j: nat)
    requires i < j <= |run| && FiresAt(run, i)
    ensures Exec(START, run[..j]).lastBossShot >= Exec(START, run[..i]).time
    ensures Exec(START, run[..j]).time >= Exec(START, run[..i]).time
  {
    hide Act, BossFires;
    var w := Exec(START, run[..j - 1]);
    assert run[..j][..j - 1] == run[..j - 1];
    assert Exec(START, run[..j]) == Act(w, run[j - 1]);
    ActTakes(w, run[j - 1]);
    LastShotKept(w, run[j - 1]);
    if i < j - 1 {
      LastShotSince(run, i, j - 1);
    } else {
      FiresMeans(w);
    }
  }

  /** Over any run, two volleys of the boss lie more than 1500 ms apart at level 1, more than 1000 at
      level 3. */
  lemma FireRate(run: seq<Section>, i: nat, j: nat)
    requires i < j < |run| && FiresAt(run, i) && FiresAt(run, j)
    ensures var w, w' := Exec(START, run[..i]), Exec(START, run[..j]);
      w'.bossLevel in {1, 3} && w'.time - w.time > if w'.bossLevel == 1 then 1500 else 1000
  {
    hide Exec, Act, BossFires;
    LastShotSince(run, i, j);
    FiresMeans(Exec(START, run[..j]));
  }

  // ---------- when the first boss comes ----------

  // At level 0 the first ten seconds are not over, but for the moment between clock and boss section.
  predicate Early(w: World, ph: Phase) {
    && (w.bossLevel == 0 && !ph.AtBoss? ==> w.time <= 10000)
    && (w.bossLevel > 0 ==> w.time > 10000)
  }

  lemma LevelZeroStays(w: World, s: Section, hits: int, ph: Phase)
    requires BossInv(w, ph, hits) && Allowed(ph, s) && !s.SpawnBoss?
    ensures Act(w, s).bossLevel == 0 <==> w.bossLevel == 0
  {
    hide Act, HitsOf, Tracks, LiveBosses;
    ActKeeps(w, s, ph, hits);
    if w.bossLevel == 0 { LevelZeroAct(w, s); }
  }

  lemma LevelZeroAct(w: World, s: Section)
    requires w.bossLevel == 0 && !s.SpawnBoss?
    ensures Act(w, s).bossLevel == 0
  {
    hide Volleys, MoveAll, SteerAll, BossFires, BossShots;
    if s.Collide? { LevelZeroVolleys(w, |w.entities|); }
  }

  lemma {:induction false} LevelZeroVolleys(w: World, n: nat)
    requires n <= |w.entities| && w.bossLevel == 0
    ensures Volleys(w, n).world.bossLevel == 0
  {
    hide FirstTarget;
    if n > 0 { LevelZeroVolleys(w, n - 1); }
  }

  lemma EarlyAct(w: World, s: Section, ph: Phase, hits: int)
    requires BossInv(w, ph, hits) && Allowed(ph, s) && Early(w, ph)
    ensures Early(Act(w, s), After(ph, s))
  {
    hide Act, BossInv;
    ActTakes(w, s);
    if s.SpawnBoss? {
      BossRule(w);
    } else {
      LevelZeroStays(w, s, hits, ph);
    }
  }

  lemma {:induction false} RunEarly(run: seq<Section>)
    requires Legal(run)
    ensures Early(Exec(START, run), PhaseOf(run))
  {
    hide Act, BossInv, Early, Allowed, After;
    if |run| > 0 {
      var before := run[..|run| - 1];
      RunEarly(before);
      RunKeeps(before);
      EarlyAct(Exec(START, before), run[|run| - 1], PhaseOf(before), BossHits(before));
    } else {
      StartsEarly();
    }
  }

  lemma StartsEarly()
    ensures Early(START, AtMove)
  {
  }

  /** Between updates, the first boss has come if and only if more than ten seconds have been played. */
  lemma FirstBossAfterTenSeconds(run: seq<Section>)
    requires Legal(run) && PhaseOf(run) == AtMove
    ensures Exec(START, run).bossLevel > 0 <==> Exec(START, run).time > 10000
  {
    RunEarly(run);
  }

  // ---------- what hits cost the boss ----------

  // The strikes against a boss by shots of this kind.
  ghost function BossStrikesBy(es: seq<Entity>, strikes: seq<Strike>, kind: nat): set<nat> {
    set k: nat | k < |strikes| && Lands(es, strikes[k], kind)
  }

  predicate Lands(es: seq<Entity>, s: Strike, kind: nat) {
    s.shot < |es| && s.target < |es| && es[s.shot].kind == kind && es[s.target].kind == 10
  }

  lemma BossStrikesNext(es: seq<Entity>, strikes: seq<Strike>, kind: nat)
    requires |strikes| > 0
    ensures var n := |strikes| - 1;
      |BossStrikesBy(es, strikes, kind)|
      == |BossStrikesBy(es, strikes[..n], kind)| + if Lands(es, strikes[n], kind) then 1 else 0
  {
    hide Lands;
    var n: nat := |strikes| - 1;
    var before := BossStrikesBy(es, strikes[..n], kind);
    if Lands(es, strikes[n], kind) {
      assert BossStrikesBy(es, strikes, kind) == before + {n};
    } else {
      assert BossStrikesBy(es, strikes, kind) == before;
    }
  }

  lemma {:induction false} DamageCounts(es: seq<Entity>, strikes: seq<Strike>)
    requires forall s :: s in strikes ==> Sound(es, s)
    ensures BossDamage(es, strikes) == 10 * |BossStrikesBy(es, strikes, 1)| + 50 * |BossStrikesBy(es, strikes, 4)|
  {
    hide BossStrikesBy, Strikes;
    if |strikes| > 0 {
      var init, last := strikes[..|strikes| - 1], strikes[|strikes| - 1];
      assert forall s :: s in init ==> s in strikes;
      DamageCounts(es, init);
      BossStrikesNext(es, strikes, 1);
      BossStrikesNext(es, strikes, 4);
      assert Sound(es, last);
      SoundShot(es, last);
    } else {
      NoStrikes(es, strikes, 1);
      NoStrikes(es, strikes, 4);
    }
  }

  lemma NoStrikes(es: seq<Entity>, strikes: seq<Strike>, kind: nat)
    requires |strikes| == 0
    ensures BossStrikesBy(es, strikes, kind) == {}
  {
  }

  lemma SoundShot(es: seq<Entity>, s: Strike)
    requires Sound(es, s)
    ensures es[s.shot].kind == 1 || es[s.shot].kind == 4
  {
  }

  /** In a collision section the boss loses 10 for every plain shot that strikes it and 50 for every charged
      one, and nothing else. */
  lemma DamageRule(w: World, players: seq<Point>)
    ensures var strikes := ShotPhase(w).strikes;
      Act(w, Collide(players)).bossHP
      == w.bossHP - 10 * |BossStrikesBy(w.entities, strikes, 1)| - 50 * |BossStrikesBy(w.entities, strikes, 4)|
  {
    hide ShotPhase, BossStrikesBy, BossDamage, MarkedShots, MarkedEnemies, Strikes, Sound;
    GreedyMatching(w);
    DamageCounts(w.entities, ShotPhase(w).strikes);
  }

  // What has been told of the boss: its health now, out of the most it had.
  predicate ToldOf(w: World, v: Volley) {
    && (forall p :: p in v.packets ==> p.BossState?)
    && (v.packets == [] ==> v.world.bossHP == w.bossHP && v.world.bossLevel == w.bossLevel)
    && (v.packets != [] ==> Last(v.packets).BossState? && Last(v.packets).hp == v.world.bossHP)
    && (v.packets != [] ==> v.packets[0].BossState? && v.packets[0].maxHp == if w.bossLevel == 3 then 2000 else 1000)
  }

  function Last(ps: seq<Packet>): Packet
    requires ps != []
  {
    ps[|ps| - 1]
  }

  lemma LandedTells(w: World, v: Volley, i: nat, j: nat)
    requires ToldOf(w, v) && i < |v.world.entities| && j < |v.world.entities|
    ensures ToldOf(w, Landed(v, i, j))
  {
    var p := BossState(v.world.bossHP - Damage(v.world.entities[i]), MaxHp(v.world));
    if v.world.entities[j].kind == BOSS {
      assert Landed(v, i, j).packets == v.packets + [p];
    } else {
      assert Landed(v, i, j).packets == v.packets;
    }
  }

  lemma {:induction false} VolleysTell(w: World, n: nat)
    requires n <= |w.entities|
    ensures ToldOf(w, Volleys(w, n))
  {
    hide ToldOf, Landed, Strikes;
    if n > 0 {
      VolleysTell(w, n - 1);
      var v := Volleys(w, n - 1);
      var j := FirstTarget(v.world.entities, n - 1, 0);
      if j < |w.entities| { LandedTells(w, v, n - 1, j); }
    } else {
      NothingTold(w);
    }
  }

  lemma NothingTold(w: World)
    ensures ToldOf(w, Volley(w, [], []))
  {
  }

  /** A collision section tells only of the boss: nothing if it was not hit, else last of all the health it
      has then, and first the most it had, 2000 at level 3 and 1000 before. */
  lemma HealthRule(w: World, players: seq<Point>)
    ensures var ps, hp := Emitted(w, Collide(players)), Act(w, Collide(players)).bossHP;
      && (forall p :: p in ps ==> p.BossState?)
      && (ps == [] ==> hp == w.bossHP)
      && (ps != [] ==> ps[|ps| - 1].BossState? && ps[|ps| - 1].hp == hp)
      && (ps != [] ==> ps[0].BossState? && ps[0].maxHp == if w.bossLevel == 3 then 2000 else 1000)
  {
    hide Volleys;
    VolleysTell(w, |w.entities|);
  }
}
