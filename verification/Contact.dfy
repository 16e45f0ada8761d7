/** The collision section in terms of points: what it marks has a point in common, and what it leaves
    live has none. */
module Contact {
  import opened Protocol
  import opened World
  import opened Collisions

  // A point strictly inside the rectangle with this upper left corner.
  predicate Inside(px: real, py: real, x: int, y: real, width: int, height: int) {
    x as real < px < (x + width) as real && y < py < y + height as real
  }

  ghost predicate Meet(x1: int, y1: real, w1: int, h1: int, x2: int, y2: real, w2: int, h2: int) {
    exists px: real, py: real :: Inside(px, py, x1, y1, w1, h1) && Inside(px, py, x2, y2, w2, h2)
  }

  // The middle of what two overlapping stretches have in common.
  function Middle(a1: real, b1: real, a2: real, b2: real): (m: real)
    requires a1 < b1 && a2 < b2 && a1 < b2 && a2 < b1
    ensures a1 < m < b1 && a2 < m < b2
  {
    ((if a1 < a2 then a2 else a1) + (if b1 < b2 then b1 else b2)) / 2.0
  }

  /** The collision test holds if and only if some point lies strictly inside both rectangles. */
  lemma OverlapMeets(x1: int, y1: real, w1: int, h1: int, x2: int, y2: real, w2: int, h2: int)
    requires w1 > 0 && h1 > 0 && w2 > 0 && h2 > 0
    ensures Overlap(x1, y1, w1, h1, x2, y2, w2, h2) <==> Meet(x1, y1, w1, h1, x2, y2, w2, h2)
  {
    if Overlap(x1, y1, w1, h1, x2, y2, w2, h2) {
      var px := Middle(x1 as real, (x1 + w1) as real, x2 as real, (x2 + w2) as real);
      var py := Middle(y1, y1 + h1 as real, y2, y2 + h2 as real);
      assert Inside(px, py, x1, y1, w1, h1) && Inside(px, py, x2, y2, w2, h2);
    }
  }

  // ---------- sizes ----------

  // Every kind of entity has its height and its width.
  predicate Shaped(e: Entity) {
    match e.kind
    case 1 => e.height == 10 && e.width == 5
    case 2 => e.height == 32 && e.width == 32
    case 3 => e.height == 40 && e.width == 40
    case 4 => e.height == 29 && e.width == 30
    case 10 => e.height == 296 && e.width == 88
    case 11 => e.height == 30 && e.width == 30
    case _ => false
  }

  ghost predicate AllShaped(es: seq<Entity>) {
    forall e :: e in es ==> Shaped(e)
  }

  lemma {:induction false} MoveShaped(es: seq<Entity>)
    requires AllShaped(es)
    ensures AllShaped(MoveAll(es))
  {
    hide Leaves, Shaped;
    if |es| > 0 {
      var init, last := es[..|es| - 1], es[|es| - 1];
      assert forall e :: e in init ==> e in es;
      MoveShaped(init);
      MovedShaped(last);
      assert last in es;
    }
  }

  lemma MovedShaped(e: Entity)
    ensures Shaped(Moved(e)) == Shaped(e)
  {
  }

  lemma SameShaped(es: seq<Entity>, es': seq<Entity>)
    requires AllShaped(es) && |es'| == |es|
    requires forall i :: 0 <= i < |es| ==>
      es'[i].kind == es[i].kind && es'[i].height == es[i].height && es'[i].width == es[i].width
    ensures AllShaped(es')
  {
    forall e | e in es' ensures Shaped(e) {
      var i :| 0 <= i < |es'| && es'[i] == e;
      assert es[i] in es;
    }
  }

  lemma CollideShaped(w: World, players: seq<Point>)
    requires AllShaped(w.entities)
    ensures AllShaped(Collided(w, players).entities)
  {
    hide Collided, ShotPhase, Rammed, Strikes, AllShaped;
    CollisionsResolved(w, players);
    SameShaped(w.entities, Collided(w, players).entities);
  }

  lemma SpawnedShaped(w: World, s: Section)
    ensures AllShaped(Spawned(w, s))
  {
    hide BossFires;
  }

  lemma ActShaped(w: World, s: Section)
    requires AllShaped(w.entities)
    ensures AllShaped(Act(w, s).entities)
  {
    hide AllShaped, Collided, MoveAll, Spawned;
    match s
    case Move => MoveShaped(w.entities);
    case Collide(players) => CollideShaped(w, players);
    case Level(sin) => SameShaped(w.entities, Act(w, s).entities);
    case Sync =>
    case Skip =>
    case _ =>
      SpawnedShaped(w, s);
      ShapedConcat(w.entities, Spawned(w, s));
  }

  lemma ShapedConcat(a: seq<Entity>, b: seq<Entity>)
    requires AllShaped(a) && AllShaped(b)
    ensures AllShaped(a + b)
  {
  }

  /** In every reachable state the size of every entity is that of its kind. */
  lemma {:induction false} ReachableShaped(run: seq<Section>)
    ensures AllShaped(Exec(START, run).entities)
  {
    hide Act;
    if |run| > 0 {
      ReachableShaped(run[..|run| - 1]);
      ActShaped(Exec(START, run[..|run| - 1]), run[|run| - 1]);
    }
  }

  // ---------- the collision section ----------

  // Two entities have a point in common.
  ghost predicate Share(a: Entity, b: Entity) {
    Meet(a.x, a.y, a.width, a.height, b.x, b.y, b.width, b.height)
  }

  // The box of a player at p, 60 wide and 30 high, has a point in common with an entity.
  ghost predicate Hits(e: Entity, p: Point) {
    Meet(p.x, p.y, 60, 30, e.x, e.y, e.width, e.height)
  }

  // Not marked, and of one of these kinds.
  predicate Live(e: Entity, kinds: set<nat>) {
    !e.hit && e.kind in kinds
  }

  lemma TouchShares(a: Entity, b: Entity)
    requires Shaped(a) && Shaped(b)
    ensures Touch(a, b) <==> Share(a, b)
  {
    hide Meet, Overlap;
    OverlapMeets(a.x, a.y, a.width, a.height, b.x, b.y, b.width, b.height);
  }

  lemma RammedHits(e: Entity, p: Point)
    requires Shaped(e)
    ensures Rammed(e, p) <==> e.kind in {2, 3, 11} && Hits(e, p)
  {
    hide Meet, Overlap;
    OverlapMeets(p.x, p.y, 60, 30, e.x, e.y, e.width, e.height);
  }

  lemma StrikesShares(es: seq<Entity>, i: nat, j: nat)
    requires i < |es| && j < |es| && Shaped(es[i]) && Shaped(es[j])
    ensures Strikes(es, i, j)
       <==> Live(es[i], {1, 4}) && Live(es[j], {2, 3, 10}) && Share(es[i], es[j])
  {
    hide Touch, Share, Shaped;
    TouchShares(es[i], es[j]);
  }

  /** After the collision section of any reachable state, no live shot has a point in common with a live
      enemy or boss, and no player with a live enemy or boss shot. */
  lemma NoContactLeft(run: seq<Section>, players: seq<Point>)
    ensures var es := Exec(START, run + [Collide(players)]).entities;
      && (forall i, j :: 0 <= i < |es| && 0 <= j < |es| && Live(es[i], {1, 4}) && Live(es[j], {2, 3, 10}) ==>
            !Share(es[i], es[j]))
      && (forall i, k :: 0 <= i < |es| && 0 <= k < |players| && Live(es[i], {2, 3, 11}) ==>
            !Hits(es[i], players[k]))
  {
    hide Exec, Shaped, Share, Hits, Collided, Strikes, Rammed;
    var w := Exec(START, run);
    ExecNext(START, run, Collide(players));
    ReachableShaped(run + [Collide(players)]);
    CollisionsResolved(w, players);
    var es := Collided(w, players).entities;
    assert Exec(START, run + [Collide(players)]).entities == es;
    forall i, j | 0 <= i < |es| && 0 <= j < |es| && Live(es[i], {1, 4}) && Live(es[j], {2, 3, 10})
      ensures !Share(es[i], es[j])
    {
      StrikesShares(es, i, j);
    }
    forall i, k | 0 <= i < |es| && 0 <= k < |players| && Live(es[i], {2, 3, 11})
      ensures !Hits(es[i], players[k])
    {
      RammedHits(es[i], players[k]);
    }
  }

  // What may mark entity i: a shot hits a target, an enemy is hit by a shot, or a hazard meets a player.
  ghost predicate Contacted(es: seq<Entity>, players: seq<Point>, i: nat)
    requires i < |es|
  {
    || (es[i].kind in {1, 4} && exists j :: 0 <= j < |es| && es[j].kind in {2, 3, 10} && Share(es[i], es[j]))
    || (es[i].kind in {2, 3} && exists j :: 0 <= j < |es| && es[j].kind in {1, 4} && Share(es[j], es[i]))
    || (es[i].kind in {2, 3, 11} && exists k :: 0 <= k < |players| && Hits(es[i], players[k]))
  }

  // A strike joins two that have a point in common.
  lemma StrikeContacts(es: seq<Entity>, players: seq<Point>, s: Strike)
    requires AllShaped(es) && Sound(es, s)
    ensures Contacted(es, players, s.shot)
    ensures es[s.target].kind != 10 ==> Contacted(es, players, s.target)
  {
    hide Shaped, Share, Touch;
    assert es[s.shot] in es && es[s.target] in es;
    StrikesShares(es, s.shot, s.target);
  }

  lemma ShotMarkContacts(w: World, players: seq<Point>, i: nat)
    requires AllShaped(w.entities) && i < |w.entities| && w.entities[i].kind != 10
    requires !w.entities[i].hit
    ensures |ShotPhase(w).world.entities| == |w.entities|
    ensures ShotPhase(w).world.entities[i].hit ==> Contacted(w.entities, players, i)
  {
    hide AllShaped, Sound, Contacted, Volleys;
    VolleysProgress(w, |w.entities|);
    var es, v := w.entities, ShotPhase(w);
    if v.world.entities[i].hit {
      assert NewlyMarked(es, v.world.entities, i);
      assert ShotIn(v.strikes, i) || TargetIn(v.strikes, i);
      var s :| s in v.strikes && (s.shot == i || s.target == i);
      StrikeContacts(es, players, s);
    }
  }

  lemma PlayerMarkContacts(es: seq<Entity>, players: seq<Point>, e: Entity, i: nat, k: nat)
    requires AllShaped(es) && i < |es| && k < |players| && e == es[i].(hit := e.hit) && Rammed(e, players[k])
    ensures Contacted(es, players, i)
  {
    hide Shaped, Hits, Rammed;
    assert es[i] in es;
    RammedSame(es[i], e, players[k]);
    RammedHits(es[i], players[k]);
  }

  /** The collision section marks nothing without contact: of what it newly marks, a shot has a point in
      common with an enemy or boss, and an enemy or boss shot with a shot or a player. A boss is marked
      by its health. */
  lemma OnlyContactMarks(run: seq<Section>, players: seq<Point>, i: nat)
    requires i < |Exec(START, run).entities| && Exec(START, run).entities[i].kind != 10
    ensures var es, es' := Exec(START, run).entities, Exec(START, run + [Collide(players)]).entities;
      && |es'| == |es| && es'[i] == es[i].(hit := es'[i].hit)
      && (es'[i].hit && !es[i].hit ==> Contacted(es, players, i))
  {
    hide Exec, AllShaped, Contacted, Collided, Strikes, Rammed, ShotPhase;
    var w := Exec(START, run);
    ExecNext(START, run, Collide(players));
    ReachableShaped(run);
    CollisionsResolved(w, players);
    GreedyMatching(w);
    var es, es1, es2 := w.entities, ShotPhase(w).world.entities, Collided(w, players).entities;
    if es2[i].hit && !es[i].hit {
      ShotMarkContacts(w, players, i);
      if !es1[i].hit {
        var k :| 0 <= k < |players| && Rammed(es1[i], players[k]);
        PlayerMarkContacts(es, players, es1[i], i, k);
      }
    }
  }
}
