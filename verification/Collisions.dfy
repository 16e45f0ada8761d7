/** The projectile phase is a greedy, maximal matching of shots to targets. */
module Collisions {
  import opened Protocol
  import opened World

  // The lists agree but for marks, and no mark is ever taken back.
  ghost predicate OnlyMarks(es: seq<Entity>, es': seq<Entity>) {
    && |es'| == |es|
    && forall i :: 0 <= i < |es| ==> es'[i] == es[i].(hit := es'[i].hit) && (es[i].hit ==> es'[i].hit)
  }

  predicate IsEnemy(e: Entity) { IsTarget(e) && e.kind != BOSS }

  ghost predicate NewlyMarked(es: seq<Entity>, es': seq<Entity>, i: int)
    requires |es| == |es'|
  {
    0 <= i < |es| && es'[i].hit && !es[i].hit
  }

  ghost function MarkedShots(es: seq<Entity>, es': seq<Entity>): set<int>
    requires |es| == |es'|
  {
    set i | 0 <= i < |es| && NewlyMarked(es, es', i) && IsShot(es[i])
  }

  ghost function MarkedEnemies(es: seq<Entity>, es': seq<Entity>): set<int>
    requires |es| == |es'|
  {
    set i | 0 <= i < |es| && NewlyMarked(es, es', i) && IsEnemy(es[i])
  }

  predicate AtBoss(es: seq<Entity>, s: Strike) {
    s.target < |es| && es[s.target].kind == BOSS
  }

  // Number of strikes against a boss, and the health they cost.
  function BossStrikes(es: seq<Entity>, strikes: seq<Strike>): nat {
    if |strikes| == 0 then 0
    else
      var s := strikes[|strikes| - 1];
      BossStrikes(es, strikes[..|strikes| - 1]) + if AtBoss(es, s) then 1 else 0
  }

  function BossDamage(es: seq<Entity>, strikes: seq<Strike>): int {
    if |strikes| == 0 then 0
    else
      var s := strikes[|strikes| - 1];
      BossDamage(es, strikes[..|strikes| - 1])
      + if AtBoss(es, s) && s.shot < |es| then Damage(es[s.shot]) else 0
  }

  // A strike joins a live shot to a live target that it overlaps.
  ghost predicate Sound(es: seq<Entity>, s: Strike) {
    && s.shot < |es| && s.target < |es|
    && Strikes(es, s.shot, s.target)
  }

  // Strikes that use each shot once and each enemy once; only a boss can be struck again.
  ghost predicate Matching(es: seq<Entity>, strikes: seq<Strike>) {
    && (forall s :: s in strikes ==> Sound(es, s))
    && (forall a, b :: 0 <= a < b < |strikes| ==> strikes[a].shot != strikes[b].shot)
    && (forall a, b :: 0 <= a < b < |strikes| && strikes[a].target == strikes[b].target
          ==> AtBoss(es, strikes[a]))
  }

  ghost predicate ShotIn(strikes: seq<Strike>, i: int) {
    exists s :: s in strikes && s.shot == i
  }

  ghost predicate TargetIn(strikes: seq<Strike>, i: int) {
    exists s :: s in strikes && s.target == i
  }

  // No shot among the first n entities can strike anything any more.
  ghost predicate Exhausted(es: seq<Entity>, n: nat) {
    n <= |es| && forall i, j :: 0 <= i < n && 0 <= j < |es| ==> !Strikes(es, i, j)
  }

  // The marks are exactly those of the strikes; a boss may be struck and stay unmarked.
  ghost predicate Explained(es: seq<Entity>, es': seq<Entity>, strikes: seq<Strike>)
    requires |es| == |es'|
  {
    && (forall i :: 0 <= i < |es| && !IsTarget(es[i]) ==>
          (NewlyMarked(es, es', i) <==> ShotIn(strikes, i)))
    && (forall i :: 0 <= i < |es| && IsEnemy(es[i]) ==>
          (NewlyMarked(es, es', i) <==> TargetIn(strikes, i)))
  }

  // What holds after the first n entities have been considered as shots.
  ghost predicate Progress(w: World, n: nat, v: Volley) {
    var es, es' := w.entities, v.world.entities;
    && n <= |es|
    && OnlyMarks(es, es')
    && Matching(es, v.strikes)
    && (forall s :: s in v.strikes ==> s.shot < n)
    && Explained(es, es', v.strikes)
  }

  lemma MatchingStep(es: seq<Entity>, es1: seq<Entity>, strikes: seq<Strike>, n: nat, j: nat)
    requires OnlyMarks(es, es1) && Matching(es, strikes) && Explained(es, es1, strikes)
    requires forall s :: s in strikes ==> s.shot < n
    requires n < |es| && j < |es| && Strikes(es1, n, j)
    ensures Matching(es, strikes + [Strike(n, j)])
  {
    assert Sound(es, Strike(n, j));
    forall a | 0 <= a < |strikes| && strikes[a].target == j
      ensures es[j].kind == BOSS
    {
      assert strikes[a] in strikes;
      assert TargetIn(strikes, j);
    }
  }

  lemma ExplainedStep(es: seq<Entity>, v: Volley, n: nat, j: nat)
    requires OnlyMarks(es, v.world.entities) && Explained(es, v.world.entities, v.strikes)
    requires n < |es| && j < |es| && Strikes(v.world.entities, n, j)
    ensures Explained(es, Landed(v, n, j).world.entities, Landed(v, n, j).strikes)
  {
    var s := Strike(n, j);
    var es2 := Landed(v, n, j).world.entities;
    forall i | 0 <= i < |es|
      ensures !IsTarget(es[i]) ==> (NewlyMarked(es, es2, i) <==> ShotIn(v.strikes + [s], i))
      ensures IsEnemy(es[i]) ==> (NewlyMarked(es, es2, i) <==> TargetIn(v.strikes + [s], i))
    {
      InGrows(v.strikes, s, i);
    }
  }

  lemma OnlyMarksStep(es: seq<Entity>, v: Volley, n: nat, j: nat)
    requires OnlyMarks(es, v.world.entities) && n < |es| && j < |es|
    ensures OnlyMarks(es, Landed(v, n, j).world.entities)
  {
  }

  lemma ProgressStep(w: World, n: nat, v: Volley, j: nat)
    requires Progress(w, n, v) && n < |w.entities|
    requires j < |w.entities| && Strikes(v.world.entities, n, j)
    ensures Progress(w, n + 1, Landed(v, n, j))
  {
    hide OnlyMarks, Matching, Explained, Strikes, Struck;
    OnlyMarksStep(w.entities, v, n, j);
    MatchingStep(w.entities, v.world.entities, v.strikes, n, j);
    ExplainedStep(w.entities, v, n, j);
  }

  lemma InGrows(strikes: seq<Strike>, s: Strike, i: int)
    ensures ShotIn(strikes + [s], i) <==> ShotIn(strikes, i) || s.shot == i
    ensures TargetIn(strikes + [s], i) <==> TargetIn(strikes, i) || s.target == i
  {
    assert s in strikes + [s];
    if ShotIn(strikes, i) {
      var t :| t in strikes && t.shot == i;
      assert t in strikes + [s];
    }
    if TargetIn(strikes, i) {
      var t :| t in strikes && t.target == i;
      assert t in strikes + [s];
    }
  }

  // A shot either strikes, and is marked, or there was nothing for it to strike.
  lemma ExhaustedStep(v: Volley, n: nat)
    requires n < |v.world.entities| && Exhausted(v.world.entities, n)
    ensures Exhausted(Fire(v, n).world.entities, n + 1)
  {
    var es1, es2 := v.world.entities, Fire(v, n).world.entities;
    assert OnlyMarks(es1, es2);
    forall i, k | 0 <= i < n + 1 && 0 <= k < |es2|
      ensures !Strikes(es2, i, k)
    {
      if i < n { assert !Strikes(es1, i, k); }
    }
  }

  // Every strike spends a shot, on an enemy or on the boss.
  ghost predicate Tallied(w: World, v: Volley)
    requires |v.world.entities| == |w.entities|
  {
    var es, es' := w.entities, v.world.entities;
    && |MarkedShots(es, es')| == |v.strikes|
    && |v.strikes| == |MarkedEnemies(es, es')| + BossStrikes(es, v.strikes)
    && v.world.bossHP == w.bossHP - BossDamage(es, v.strikes)
  }

  // One shot gains a mark, and with it its target if that is an enemy.
  ghost predicate MarksGrow(es: seq<Entity>, es1: seq<Entity>, es2: seq<Entity>, n: nat, j: nat) {
    && OnlyMarks(es, es1) && OnlyMarks(es, es2)
    && n < |es| && j < |es| && IsShot(es[n]) && IsTarget(es[j])
    && !es1[n].hit && es2[n].hit && !es1[j].hit
    && (IsEnemy(es[j]) ==> es2[j].hit)
    && (forall i :: 0 <= i < |es| && i != n && i != j ==> es2[i] == es1[i])
  }

  lemma MarkedShotsGrow(es: seq<Entity>, es1: seq<Entity>, es2: seq<Entity>, n: nat, j: nat)
    requires MarksGrow(es, es1, es2, n, j)
    ensures |MarkedShots(es, es2)| == |MarkedShots(es, es1)| + 1
  {
    var before := MarkedShots(es, es1);
    assert n !in before;
    forall i ensures i in MarkedShots(es, es2) <==> i in before + {n} {
      if i in MarkedShots(es, es2) && i != n { assert es2[i] == es1[i]; }
    }
    assert MarkedShots(es, es2) == before + {n};
  }

  lemma MarkedEnemiesNext(es: seq<Entity>, es1: seq<Entity>, es2: seq<Entity>, n: nat, j: nat, i: int)
    requires MarksGrow(es, es1, es2, n, j)
    ensures i in MarkedEnemies(es, es2) <==> i in MarkedEnemies(es, es1) || (i == j && IsEnemy(es[j]))
  {
    if i != j && i != n && 0 <= i < |es| { assert es2[i] == es1[i]; }
  }

  lemma MarkedEnemiesGrow(es: seq<Entity>, es1: seq<Entity>, es2: seq<Entity>, n: nat, j: nat)
    requires MarksGrow(es, es1, es2, n, j)
    ensures |MarkedEnemies(es, es2)| == |MarkedEnemies(es, es1)| + if es[j].kind == BOSS then 0 else 1
  {
    var before := MarkedEnemies(es, es1);
    assert j !in before && (IsEnemy(es[j]) <==> es[j].kind != BOSS);
    hide MarksGrow;
    var more: set<int> := if es[j].kind == BOSS then {} else {j};
    forall i ensures i in MarkedEnemies(es, es2) <==> i in before + more {
      MarkedEnemiesNext(es, es1, es2, n, j, i);
    }
    assert MarkedEnemies(es, es2) == before + more;
  }

  lemma MarkedGrow(es: seq<Entity>, v: Volley, n: nat, j: nat)
    requires OnlyMarks(es, v.world.entities) && n < |es| && j < |es|
    requires Strikes(v.world.entities, n, j)
    ensures var es1, es2 := v.world.entities, Landed(v, n, j).world.entities;
            && |MarkedShots(es, es2)| == |MarkedShots(es, es1)| + 1
            && |MarkedEnemies(es, es2)| == |MarkedEnemies(es, es1)| + if es[j].kind == BOSS then 0 else 1
  {
    var es1, es2 := v.world.entities, Landed(v, n, j).world.entities;
    MarkedShotsGrow(es, es1, es2, n, j);
    MarkedEnemiesGrow(es, es1, es2, n, j);
  }

  lemma TallyStep(w: World, n: nat, v: Volley, j: nat)
    requires OnlyMarks(w.entities, v.world.entities) && n < |w.entities|
    requires Tallied(w, v)
    requires j < |w.entities| && Strikes(v.world.entities, n, j)
    ensures Tallied(w, Landed(v, n, j))
  {
    MarkedGrow(w.entities, v, n, j);
    var strikes := Landed(v, n, j).strikes;
    assert strikes[..|strikes| - 1] == v.strikes;
  }

  lemma {:induction false} VolleysProgress(w: World, n: nat)
    requires n <= |w.entities|
    ensures Progress(w, n, Volleys(w, n))
  {
    hide Landed, Strikes;
    if n > 0 {
      var v := Volleys(w, n - 1);
      VolleysProgress(w, n - 1);
      var j := FirstTarget(v.world.entities, n - 1, 0);
      if j < |w.entities| {
        ProgressStep(w, n - 1, v, j);
      }
    }
  }

  lemma {:induction false} VolleysExhausted(w: World, n: nat)
    requires n <= |w.entities|
    ensures Exhausted(Volleys(w, n).world.entities, n)
  {
    hide Fire, Exhausted;
    if n > 0 {
      VolleysExhausted(w, n - 1);
      ExhaustedStep(Volleys(w, n - 1), n - 1);
    } else {
      NobodyExhausted(w.entities);
    }
  }

  lemma NobodyExhausted(es: seq<Entity>)
    ensures Exhausted(es, 0)
  {
  }

  lemma FireTallied(w: World, v: Volley, n: nat)
    requires n < |w.entities| && OnlyMarks(w.entities, v.world.entities) && Tallied(w, v)
    ensures |Fire(v, n).world.entities| == |w.entities| && Tallied(w, Fire(v, n))
  {
    hide Tallied, OnlyMarks, Landed, Strikes;
    MarksKeepLength(w.entities, v.world.entities);
    var j := FirstTarget(v.world.entities, n, 0);
    if j < |w.entities| {
      TallyStep(w, n, v, j);
    }
  }

  lemma MarksKeepLength(es: seq<Entity>, es': seq<Entity>)
    requires OnlyMarks(es, es')
    ensures |es'| == |es|
  {
  }

  lemma VolleysOnlyMark(w: World, n: nat)
    requires n <= |w.entities|
    ensures OnlyMarks(w.entities, Volleys(w, n).world.entities)
  {
    VolleysProgress(w, n);
  }

  lemma NothingTallied(w: World)
    ensures Tallied(w, Volley(w, [], []))
  {
    var es := w.entities;
    assert MarkedShots(es, es) == {} && MarkedEnemies(es, es) == {};
  }

  lemma {:induction false} VolleysTallied(w: World, n: nat)
    requires n <= |w.entities|
    ensures Tallied(w, Volleys(w, n))
  {
    hide Tallied, OnlyMarks, Fire;
    if n == 0 {
      NothingTallied(w);
    } else {
      VolleysTallied(w, n - 1);
      VolleysOnlyMark(w, n - 1);
      FireTallied(w, Volleys(w, n - 1), n - 1);
    }
  }

  // The shots marked are those of the strikes.
  lemma ShotsExplained(es: seq<Entity>, es': seq<Entity>, strikes: seq<Strike>)
    requires OnlyMarks(es, es') && Matching(es, strikes) && Explained(es, es', strikes)
    ensures MarkedShots(es, es') == (set s | s in strikes :: s.shot)
  {
    hide Touch;
    var shots := set s | s in strikes :: s.shot;
    forall i ensures i in MarkedShots(es, es') <==> i in shots {
      if i in shots {
        assert ShotIn(strikes, i);
        var s :| s in strikes && s.shot == i;
        assert Sound(es, s);
      }
    }
  }

  /** The projectile phase marks a matching, takes exactly its damage from the boss, and leaves no
      live shot on a live target. */
  lemma GreedyMatching(w: World)
    ensures var v := ShotPhase(w); var es, es' := w.entities, v.world.entities;
            && OnlyMarks(es, es')
            && Matching(es, v.strikes)
            && MarkedShots(es, es') == (set s | s in v.strikes :: s.shot)
            && |MarkedShots(es, es')| == |MarkedEnemies(es, es')| + BossStrikes(es, v.strikes)
            && v.world.bossHP == w.bossHP - BossDamage(es, v.strikes)
            && (forall i, j :: 0 <= i < |es| && 0 <= j < |es| ==> !Strikes(es', i, j))
  {
    hide Volleys, OnlyMarks, Matching, Explained, MarkedShots, MarkedEnemies, Strikes, BossStrikes, BossDamage;
    VolleysProgress(w, |w.entities|);
    VolleysExhausted(w, |w.entities|);
    VolleysTallied(w, |w.entities|);
    ShotsExplained(w.entities, ShotPhase(w).world.entities, ShotPhase(w).strikes);
  }

  lemma StrikesSame(es: seq<Entity>, es': seq<Entity>, i: nat, j: nat)
    requires OnlyMarks(es, es') && i < |es| && j < |es| && !Strikes(es, i, j)
    ensures !Strikes(es', i, j)
  {
    hide Touch;
    TouchSame(es[i], es[j], es'[i], es'[j]);
  }

  lemma TouchSame(a: Entity, b: Entity, a': Entity, b': Entity)
    requires a' == a.(hit := a'.hit) && b' == b.(hit := b'.hit)
    ensures Touch(a', b') == Touch(a, b)
  {
  }

  lemma RammedSame(e: Entity, e': Entity, p: Point)
    requires e' == e.(hit := e'.hit)
    ensures Rammed(e', p) == Rammed(e, p)
  {
  }

  lemma PlayerPhaseMarks(es: seq<Entity>, players: seq<Point>)
    ensures OnlyMarks(es, PlayerPhase(es, players))
    ensures forall i :: 0 <= i < |es| ==>
              (PlayerPhase(es, players)[i].hit
               <==> es[i].hit || exists k :: 0 <= k < |players| && Rammed(es[i], players[k]))
  {
    hide Rammed;
  }

  lemma OnlyMarksTwice(a: seq<Entity>, b: seq<Entity>, c: seq<Entity>)
    requires OnlyMarks(a, b) && OnlyMarks(b, c)
    ensures OnlyMarks(a, c)
  {
  }

  lemma SameMarked(es: seq<Entity>, es': seq<Entity>, i: nat)
    requires OnlyMarks(es, es') && i < |es|
    ensures |es'| == |es| && es'[i] == es[i].(hit := es'[i].hit)
  {
  }

  /** After the player phase an entity is marked exactly when it was before or is a hazard that
      touches a player; the whole collision section leaves no live pair behind. */
  lemma CollisionsResolved(w: World, players: seq<Point>)
    ensures var es1, es2 := ShotPhase(w).world.entities, Collided(w, players).entities;
            && OnlyMarks(w.entities, es2)
            && (forall i :: 0 <= i < |es2| ==>
                  (es2[i].hit <==> es1[i].hit || exists k :: 0 <= k < |players| && Rammed(es1[i], players[k])))
            && (forall i, k :: 0 <= i < |es2| && 0 <= k < |players| && Rammed(es2[i], players[k]) ==> es2[i].hit)
            && (forall i, j :: 0 <= i < |es2| && 0 <= j < |es2| ==> !Strikes(es2, i, j))
  {
    hide Volleys, Matching, OnlyMarks, Rammed, Strikes, ShotPhase, PlayerPhase, MarkedShots, MarkedEnemies;
    GreedyMatching(w);
    var es1, es2 := ShotPhase(w).world.entities, Collided(w, players).entities;
    PlayerPhaseMarks(es1, players);
    OnlyMarksTwice(w.entities, es1, es2);
    MarksKeepLength(w.entities, es1);
    MarksKeepLength(es1, es2);
    forall i, j | 0 <= i < |es2| && 0 <= j < |es2| ensures !Strikes(es2, i, j) {
      StrikesSame(es1, es2, i, j);
    }
    forall i, k | 0 <= i < |es2| && 0 <= k < |players| && Rammed(es2[i], players[k])
      ensures es2[i].hit
    {
      SameMarked(es1, es2, i);
      RammedSame(es1[i], es2[i], players[k]);
    }
  }
}
