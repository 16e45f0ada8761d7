/** The boss fight over whole runs: level, health and the boss entity stay in step, however the
    players' shots interleave with the sections of the game loop. */
module BossRun {
  import opened Protocol
  import opened World
  import opened Collisions

  predicate IsBoss(e: Entity) { e.kind == BOSS }

  predicate LiveBoss(e: Entity) { e.kind == BOSS && !e.hit }

  // Number of unmarked bosses in the list.
  function LiveBosses(es: seq<Entity>): nat {
    if |es| == 0 then 0
    else LiveBosses(es[..|es| - 1]) + if LiveBoss(es[|es| - 1]) then 1 else 0
  }

  predicate Fighting(level: nat) { level == 1 || level == 3 }

  // Where a boss is, and how it moves: down to x == 1500 in steps of 2, then it stays there.
  // Between Move and Level its velocity may still be the one of the step it has just made.
  predicate BossTrack(e: Entity, ph: Phase) {
    && 1500 <= e.x <= 1600 && e.x % 2 == 0
    && (ph.AtCollide? || ph.AtLevel? || e.vx == if e.x > 1500 then -2 else 0)
  }

  ghost predicate Tracks(es: seq<Entity>, ph: Phase) {
    forall e :: e in es && IsBoss(e) ==> BossTrack(e, ph)
  }

  // Level, health and the number `hits` of boss hits so far.
  predicate Score(w: World, hits: int) {
    && w.bossHP % 10 == 0 && w.bossHP >= -40
    && (w.bossHP > 0 <==> Fighting(w.bossLevel))
    && match w.bossLevel
       case 0 => hits == 0
       case 1 => 10 * hits <= 1000 - w.bossHP <= 50 * hits
       case 2 => 20 <= hits <= 100
       case 3 => 20 <= hits && 10 * (hits - 100) <= 2000 - w.bossHP <= 50 * (hits - 20)
       case 4 => 60 <= hits <= 300
       case _ => false
  }

  predicate Standing(w: World, hits: int) {
    && Score(w, hits)
    && LiveBosses(w.entities) == if Fighting(w.bossLevel) then 1 else 0
  }

  // Level 2 lasts only from a collision section to the boss section of the same update.
  predicate Cooldown(w: World, ph: Phase) {
    w.bossLevel == 2 ==> (ph.AtLevel? && w.bossDeath <= w.time) || (ph.AtBoss? && w.bossDeath < w.time)
  }

  ghost predicate BossInv(w: World, ph: Phase, hits: int) {
    Standing(w, hits) && Tracks(w.entities, ph) && Cooldown(w, ph)
  }

  // ---------- counting live bosses ----------

  lemma {:induction false} LiveBossesPositive(es: seq<Entity>, j: nat)
    requires j < |es| && LiveBoss(es[j])
    ensures LiveBosses(es) > 0
  {
    if j < |es| - 1 { LiveBossesPositive(es[..|es| - 1], j); }
  }

  lemma {:induction false} LiveBossesMark(es: seq<Entity>, j: nat)
    requires j < |es|
    ensures LiveBosses(MarkHit(es, j)) == LiveBosses(es) - if LiveBoss(es[j]) then 1 else 0
  {
    var n := |es| - 1;
    if j < n {
      LiveBossesMark(es[..n], j);
      assert MarkHit(es, j)[..n] == MarkHit(es[..n], j);
    } else {
      assert MarkHit(es, j)[..n] == es[..n];
    }
  }

  lemma {:induction false} LiveBossesSame(es: seq<Entity>, es': seq<Entity>)
    requires |es'| == |es|
    requires forall i :: 0 <= i < |es| ==> LiveBoss(es'[i]) == LiveBoss(es[i])
    ensures LiveBosses(es') == LiveBosses(es)
  {
    if |es| > 0 { LiveBossesSame(es[..|es| - 1], es'[..|es| - 1]); }
  }

  lemma {:induction false} LiveBossesAppend(a: seq<Entity>, b: seq<Entity>)
    ensures LiveBosses(a + b) == LiveBosses(a) + LiveBosses(b)
  {
    if |b| == 0 {
      assert a + b == a;
    } else {
      LiveBossesAppend(a, b[..|b| - 1]);
      assert (a + b)[..|a + b| - 1] == a + b[..|b| - 1];
    }
  }

  lemma {:induction false} LiveBossesNone(es: seq<Entity>)
    requires forall e :: e in es ==> !IsBoss(e)
    ensures LiveBosses(es) == 0
  {
    if |es| > 0 {
      assert es[|es| - 1] in es;
      LiveBossesNone(es[..|es| - 1]);
    }
  }

  // A live boss on its track does not leave the screen.
  lemma TrackMoves(e: Entity)
    requires IsBoss(e) ==> BossTrack(e, AtMove)
    ensures LiveBoss(e) ==> !Leaves(Moved(e))
    ensures LiveBoss(Moved(e)) == LiveBoss(e)
    ensures IsBoss(e) ==> BossTrack(Moved(e), AtCollide)
  {
  }

  lemma LiveBossesOne(e: Entity)
    ensures LiveBosses([e]) == if LiveBoss(e) then 1 else 0
  {
    assert [e][..0] == [];
  }

  lemma {:induction false} LiveBossesMoved(es: seq<Entity>)
    requires Tracks(es, AtMove)
    ensures LiveBosses(MoveAll(es)) == LiveBosses(es)
    ensures Tracks(MoveAll(es), AtCollide)
  {
    hide LiveBoss, Leaves, Moved, BossTrack;
    if |es| > 0 {
      var init, e := es[..|es| - 1], es[|es| - 1];
      assert e in es;
      assert Tracks(init, AtMove) by { assert forall d :: d in init ==> d in es; }
      LiveBossesMoved(init);
      TrackMoves(e);
      if Leaves(Moved(e)) {
        LeavingLast(es);
      } else {
        StayingLast(es);
        LiveBossesAppend(MoveAll(init), [Moved(e)]);
        LiveBossesOne(Moved(e));
        IsBossMoved(e);
      }
    }
  }

  lemma IsBossMoved(e: Entity)
    ensures IsBoss(Moved(e)) == IsBoss(e)
  {
  }

  lemma LeavingLast(es: seq<Entity>)
    requires |es| > 0 && Leaves(Moved(es[|es| - 1]))
    ensures MoveAll(es) == MoveAll(es[..|es| - 1])
  {
  }

  lemma StayingLast(es: seq<Entity>)
    requires |es| > 0 && !Leaves(Moved(es[|es| - 1]))
    ensures MoveAll(es) == MoveAll(es[..|es| - 1]) + [Moved(es[|es| - 1])]
  {
  }

  // ---------- sections ----------

  // Time stands still during a collision section; the level can only rise, and a boss that dies
  // now starts the cooldown now.
  predicate Onward(w: World, w': World) {
    && w'.bossLevel >= w.bossLevel && w'.time == w.time
    && (w'.bossLevel == 2 && w.bossLevel != 2 ==> w'.bossDeath == w.time)
    && (w'.bossLevel == w.bossLevel ==> w'.bossDeath == w.bossDeath)
  }

  // Whether this strike kills the boss.
  predicate Kills(w: World, i: nat, j: nat)
    requires i < |w.entities| && j < |w.entities|
  {
    w.entities[j].kind == BOSS && w.bossHP - Damage(w.entities[i]) <= 0
  }

  lemma StruckScore(w: World, hits: int, i: nat, j: nat)
    requires Score(w, hits) && i < |w.entities| && j < |w.entities|
    requires w.entities[j].kind == BOSS ==> Fighting(w.bossLevel)
    ensures Score(Struck(w, i, j), hits + if w.entities[j].kind == BOSS then 1 else 0)
    ensures Onward(w, Struck(w, i, j))
    ensures Fighting(Struck(w, i, j).bossLevel) <==> Fighting(w.bossLevel) && !Kills(w, i, j)
  {
    hide MarkHit;
  }

  lemma StruckBosses(w: World, i: nat, j: nat)
    requires i < |w.entities| && j < |w.entities| && Strikes(w.entities, i, j)
    ensures LiveBosses(Struck(w, i, j).entities) == LiveBosses(w.entities) - if Kills(w, i, j) then 1 else 0
  {
    hide LiveBosses, Touch;
    LiveBossesMark(w.entities, i);
    LiveBossesMark(MarkHit(w.entities, i), j);
  }

  // One strike at a live target.
  lemma StruckStands(w: World, hits: int, i: nat, j: nat)
    requires Standing(w, hits) && i < |w.entities| && j < |w.entities| && Strikes(w.entities, i, j)
    ensures Standing(Struck(w, i, j), hits + if w.entities[j].kind == BOSS then 1 else 0)
    ensures Onward(w, Struck(w, i, j))
  {
    hide LiveBosses, Touch, Struck, Score, Onward;
    if w.entities[j].kind == BOSS { LiveBossesPositive(w.entities, j); }
    StruckScore(w, hits, i, j);
    StruckBosses(w, i, j);
  }

  function HitsOf(w: World): nat {
    BossStrikes(w.entities, ShotPhase(w).strikes)
  }

  lemma LandedStrikes(es: seq<Entity>, v: Volley, i: nat, j: nat)
    requires OnlyMarks(es, v.world.entities) && i < |es| && j < |es|
    ensures |v.world.entities| == |es|
    ensures Landed(v, i, j).world == Struck(v.world, i, j)
    ensures BossStrikes(es, Landed(v, i, j).strikes)
         == BossStrikes(es, v.strikes) + if v.world.entities[j].kind == BOSS then 1 else 0
  {
    hide Struck;
    var strikes := Landed(v, i, j).strikes;
    assert strikes[..|strikes| - 1] == v.strikes;
  }

  // What a shot does: nothing, or it lands on the first live target that it overlaps.
  lemma FireCases(es: seq<Entity>, v: Volley, n: nat) returns (j: nat)
    requires n < |es| && OnlyMarks(es, v.world.entities)
    ensures |v.world.entities| == |es|
    ensures j >= |es| ==> Fire(v, n) == v
    ensures j < |es| ==> Strikes(v.world.entities, n, j) && Fire(v, n) == Landed(v, n, j)
  {
    hide Landed, Strikes;
    j := FirstTarget(v.world.entities, n, 0);
  }

  lemma FireStands(es: seq<Entity>, v: Volley, n: nat, hits: int)
    requires n < |es| && OnlyMarks(es, v.world.entities)
    requires Standing(v.world, hits + BossStrikes(es, v.strikes))
    ensures Standing(Fire(v, n).world, hits + BossStrikes(es, Fire(v, n).strikes))
    ensures Onward(v.world, Fire(v, n).world)
  {
    hide Standing, Struck, Strikes, BossStrikes, OnlyMarks, Fire, Landed, FirstTarget;
    var j := FireCases(es, v, n);
    if j < |es| {
      StruckStands(v.world, hits + BossStrikes(es, v.strikes), n, j);
      LandedStrikes(es, v, n, j);
    }
  }

  lemma {:induction false} VolleysStand(w: World, n: nat, hits: int)
    requires Standing(w, hits) && n <= |w.entities|
    ensures Standing(Volleys(w, n).world, hits + BossStrikes(w.entities, Volleys(w, n).strikes))
    ensures Onward(w, Volleys(w, n).world)
  {
    hide Standing, OnlyMarks, Fire;
    if n > 0 {
      var v := Volleys(w, n - 1);
      VolleysStand(w, n - 1, hits);
      VolleysOnlyMark(w, n - 1);
      FireStands(w.entities, v, n - 1, hits);
    }
  }

  lemma PlayersSpareBosses(es: seq<Entity>, players: seq<Point>)
    ensures LiveBosses(PlayerPhase(es, players)) == LiveBosses(es)
  {
    LiveBossesSame(es, PlayerPhase(es, players));
  }

  lemma CollideStands(w: World, players: seq<Point>, hits: int)
    requires Standing(w, hits)
    ensures Standing(Collided(w, players), hits + HitsOf(w))
    ensures Onward(w, Collided(w, players))
  {
    hide PlayerPhase, Volleys, LiveBosses, BossStrikes;
    VolleysStand(w, |w.entities|, hits);
    PlayersSpareBosses(ShotPhase(w).world.entities, players);
  }

  lemma CollideTracks(w: World, players: seq<Point>)
    requires Tracks(w.entities, AtCollide)
    ensures Tracks(Collided(w, players).entities, AtLevel)
  {
    hide Strikes, Collided, ShotPhase;
    CollisionsResolved(w, players);
    var es2 := Collided(w, players).entities;
    forall e | e in es2 && IsBoss(e)
      ensures BossTrack(e, AtLevel)
    {
      var i :| 0 <= i < |es2| && es2[i] == e;
      assert w.entities[i] in w.entities;
    }
  }

  lemma CollideKeeps(w: World, players: seq<Point>, hits: int)
    requires BossInv(w, AtCollide, hits)
    ensures BossInv(Collided(w, players), AtLevel, hits + HitsOf(w))
    ensures Collided(w, players).bossLevel >= w.bossLevel
  {
    hide Collided, HitsOf, Standing, Tracks;
    CollideStands(w, players, hits);
    CollideTracks(w, players);
  }

  lemma LevelKeeps(w: World, sin: real -> real, hits: int)
    requires BossInv(w, AtLevel, hits)
    ensures BossInv(Act(w, Level(sin)), AtBoss, hits)
  {
    var es, es' := w.entities, Act(w, Level(sin)).entities;
    LiveBossesSame(es, es');
    forall e | e in es' && IsBoss(e)
      ensures BossTrack(e, AtBoss)
    {
      var i :| 0 <= i < |es'| && es'[i] == e;
      assert es[i] in es;
    }
  }

  lemma SpawnBossKeeps(w: World, hits: int)
    requires BossInv(w, AtBoss, hits)
    ensures BossInv(Act(w, SpawnBoss), AtFire, hits)
    ensures Act(w, SpawnBoss).bossLevel >= w.bossLevel
  {
    if BossDue(w) > 0 {
      var boss := NewBoss(w.nextId);
      LiveBossesAppend(w.entities, [boss]);
      assert LiveBosses([boss]) == 1 by { assert [boss][..0] == []; }
    } else {
      assert w.entities + [] == w.entities;
    }
  }

  // Entities of other kinds are appended.
  lemma OthersAppended(es: seq<Entity>, more: seq<Entity>, ph: Phase, ph': Phase)
    requires Tracks(es, ph) && forall e :: e in more ==> !IsBoss(e)
    requires forall e :: BossTrack(e, ph) ==> BossTrack(e, ph')
    ensures Tracks(es + more, ph') && LiveBosses(es + more) == LiveBosses(es)
  {
    hide BossTrack, LiveBosses;
    LiveBossesNone(more);
    LiveBossesAppend(es, more);
    forall e | e in es + more && IsBoss(e) ensures BossTrack(e, ph') { assert e in es; }
  }

  lemma OthersSpawned(w: World, s: Section)
    requires s.BossFire? || s.SpawnEnemy? || s.Shoot?
    ensures forall e :: e in Spawned(w, s) ==> !IsBoss(e)
    ensures var w' := Act(w, s);
      && w'.entities == w.entities + Spawned(w, s)
      && w' == w.(entities := w'.entities, nextId := w'.nextId, lastBossShot := w'.lastBossShot)
  {
    hide BossFires;
  }

  // Sections that only append entities of other kinds.
  lemma AppendKeeps(w: World, s: Section, ph: Phase, hits: int)
    requires BossInv(w, ph, hits) && (s.BossFire? || s.SpawnEnemy? || s.Shoot?)
    requires !s.Shoot? ==> !ph.AtBoss? && !ph.AtMove? && !ph.AtCollide? && !ph.AtLevel?
    ensures BossInv(Act(w, s), After(ph, s), hits)
  {
    hide Act, Spawned, LiveBosses, Tracks;
    OthersSpawned(w, s);
    OthersAppended(w.entities, Spawned(w, s), ph, After(ph, s));
  }

  function SectionHits(w: World, s: Section): nat {
    if s.Collide? then HitsOf(w) else 0
  }

  lemma ActKeeps(w: World, s: Section, ph: Phase, hits: int)
    requires BossInv(w, ph, hits) && Allowed(ph, s)
    ensures BossInv(Act(w, s), After(ph, s), hits + SectionHits(w, s))
    ensures Act(w, s).bossLevel >= w.bossLevel
  {
    match s
    case Move => LiveBossesMoved(w.entities);
    case Collide(players) => CollideKeeps(w, players, hits);
    case Level(sin) => LevelKeeps(w, sin, hits);
    case SpawnBoss => SpawnBossKeeps(w, hits);
    case BossFire => AppendKeeps(w, s, ph, hits);
    case SpawnEnemy(_) => AppendKeeps(w, s, ph, hits);
    case Shoot(_, _) => AppendKeeps(w, s, ph, hits);
    case Sync =>
    case Skip =>
  }

  // ---------- runs ----------

  // Number of boss hits of a run.
  function BossHits(run: seq<Section>): nat {
    if |run| == 0 then 0
    else
      var before := run[..|run| - 1];
      BossHits(before) + SectionHits(Exec(START, before), run[|run| - 1])
  }

  lemma {:induction false} RunKeeps(run: seq<Section>)
    requires Legal(run)
    ensures BossInv(Exec(START, run), PhaseOf(run), BossHits(run))
  {
    if |run| > 0 {
      var before := run[..|run| - 1];
      RunKeeps(before);
      ActKeeps(Exec(START, before), run[|run| - 1], PhaseOf(before), BossHits(before));
    }
  }

  /** Between updates the level is 0, 1, 3 or 4, there is exactly one live boss at levels 1 and 3
      and none otherwise, health is positive exactly then, and victory takes 60 to 300 hits. */
  lemma BossBetweenUpdates(run: seq<Section>)
    requires Legal(run) && PhaseOf(run) == AtMove
    ensures var w := Exec(START, run);
            && w.bossLevel in {0, 1, 3, 4}
            && LiveBosses(w.entities) == (if Fighting(w.bossLevel) then 1 else 0)
            && (w.bossHP > 0 <==> LiveBosses(w.entities) == 1)
            && w.bossHP % 10 == 0 && w.bossHP >= -40
            && (w.bossLevel == 4 ==> 60 <= BossHits(run) <= 300)
  {
    RunKeeps(run);
  }

  /** The level never falls. */
  lemma {:induction false} LevelNeverFalls(run: seq<Section>, k: nat)
    requires Legal(run) && k <= |run|
    ensures Legal(run[..k])
    ensures Exec(START, run[..k]).bossLevel <= Exec(START, run).bossLevel
  {
    if k == |run| {
      assert run[..k] == run;
    } else {
      var before := run[..|run| - 1];
      LevelNeverFalls(before, k);
      assert before[..k] == run[..k];
      RunKeeps(before);
      ActKeeps(Exec(START, before), run[|run| - 1], PhaseOf(before), BossHits(before));
    }
  }

  /** In every phase, every boss in the list is on its track, so that a boss leaves the list only
      after it has been marked, that is after its health has reached zero. */
  lemma BossLeavesOnlyDead(run: seq<Section>, e: Entity)
    requires Legal(run) && PhaseOf(run) == AtMove
    requires e in Exec(START, run).entities && IsBoss(e)
    ensures 1500 <= e.x <= 1600 && e.x % 2 == 0
    ensures Leaves(Moved(e)) <==> e.hit
  {
    RunKeeps(run);
  }

  // Sections between a collision section and the end of the boss section of the same update.
  ghost predicate NoCollision(more: seq<Section>) {
    forall s :: s in more ==> !s.Collide?
  }

  lemma CalmStep(w: World, s: Section)
    requires !s.Collide? && w.bossLevel in {2, 3}
    ensures Act(w, s).bossLevel in {2, 3}
  {
  }

  lemma {:induction false} CalmLevel(w: World, more: seq<Section>)
    requires NoCollision(more) && w.bossLevel in {2, 3}
    ensures Exec(w, more).bossLevel in {2, 3}
  {
    hide Act;
    if |more| > 0 {
      var init, s := more[..|more| - 1], more[|more| - 1];
      assert more == init + [s];
      CalmLevel(w, init);
      CalmStep(Exec(w, init), s);
    }
  }

  lemma LevelAtFire(run: seq<Section>)
    requires Legal(run) && PhaseOf(run) == AtFire
    ensures Exec(START, run).bossLevel != 2
  {
    hide Exec, Legal, PhaseOf, Standing, Tracks;
    RunKeeps(run);
  }

  /** A second boss appears in the very update in which the first one dies, whatever the comment on the 30
      seconds between them says and whatever shots come in between: when the sections after the collision
      have taken the update past its boss section, the level is 3. */
  lemma NoCooldown(run: seq<Section>, more: seq<Section>)
    requires Legal(run) && Exec(START, run).bossLevel == 2
    requires Legal(run + more) && PhaseOf(run + more) == AtFire && NoCollision(more)
    ensures Exec(START, run + more).bossLevel == 3
  {
    hide Exec, Legal, PhaseOf;
    ExecConcat(START, run, more);
    CalmLevel(Exec(START, run), more);
    LevelAtFire(run + more);
  }
}
