/** Every entity is announced once, destroyed at most once, and gone after 389 updates. */
module Lifecycle {
  import opened Basics
  import opened Protocol
  import opened World
  import opened Collisions

  function Ids(es: seq<Entity>): seq<nat> {
    seq(|es|, i requires 0 <= i < |es| => es[i].id)
  }

  // The ids 1, 2, ..., n - 1 in order.
  function Below(n: nat): seq<nat>
    requires n >= 1
  {
    seq(n - 1, i => i + 1)
  }

  function SpawnIds(ps: seq<Packet>): seq<nat> {
    if |ps| == 0 then []
    else
      var p := ps[|ps| - 1];
      SpawnIds(ps[..|ps| - 1]) + if p.EntitySpawn? then [p.id] else []
  }

  function DestroyIds(ps: seq<Packet>): seq<nat> {
    if |ps| == 0 then []
    else
      var p := ps[|ps| - 1];
      DestroyIds(ps[..|ps| - 1]) + if p.EntityDestroy? then [p.id] else []
  }

  // ---------- concatenation ----------

  lemma {:induction false} SpawnIdsConcat(a: seq<Packet>, b: seq<Packet>)
    ensures SpawnIds(a + b) == SpawnIds(a) + SpawnIds(b)
  {
    if |b| == 0 {
      assert a + b == a;
    } else {
      SpawnIdsConcat(a, b[..|b| - 1]);
      assert (a + b)[..|a + b| - 1] == a + b[..|b| - 1];
    }
  }

  lemma {:induction false} DestroyIdsConcat(a: seq<Packet>, b: seq<Packet>)
    ensures DestroyIds(a + b) == DestroyIds(a) + DestroyIds(b)
  {
    if |b| == 0 {
      assert a + b == a;
    } else {
      DestroyIdsConcat(a, b[..|b| - 1]);
      assert (a + b)[..|a + b| - 1] == a + b[..|b| - 1];
    }
  }

  lemma IdsOfConcat(a: seq<Packet>, b: seq<Packet>)
    ensures SpawnIds(a + b) == SpawnIds(a) + SpawnIds(b)
    ensures DestroyIds(a + b) == DestroyIds(a) + DestroyIds(b)
  {
    SpawnIdsConcat(a, b);
    DestroyIdsConcat(a, b);
  }

  lemma {:induction false} IdsOfSpawns(es: seq<Entity>)
    ensures SpawnIds(SpawnPackets(es)) == Ids(es)
    ensures DestroyIds(SpawnPackets(es)) == []
  {
    if |es| > 0 {
      var init := es[..|es| - 1];
      IdsOfSpawns(init);
      assert SpawnPackets(es)[..|es| - 1] == SpawnPackets(init);
      assert Ids(es) == Ids(init) + [es[|es| - 1].id];
    }
  }

  // Packets about neither births nor deaths.
  lemma {:induction false} NoIds(ps: seq<Packet>)
    requires forall p :: p in ps ==> !p.EntitySpawn? && !p.EntityDestroy?
    ensures SpawnIds(ps) == [] && DestroyIds(ps) == []
  {
    if |ps| > 0 {
      assert ps[|ps| - 1] in ps;
      NoIds(ps[..|ps| - 1]);
    }
  }

  // How often x occurs in s.
  function Times(s: seq<nat>, x: nat): nat {
    multiset(s)[x]
  }

  lemma TimesConcat(a: seq<nat>, b: seq<nat>, x: nat)
    ensures Times(a + b, x) == Times(a, x) + Times(b, x)
  {
  }

  // What the last round of the erase loop adds.
  lemma MoveLast(es: seq<Entity>)
    requires |es| > 0
    ensures var init, e := es[..|es| - 1], es[|es| - 1];
            var ps, ps0 := MovePackets(es), MovePackets(init);
            && Ids(es) == Ids(init) + [e.id]
            && SpawnIds(ps) == SpawnIds(ps0)
            && DestroyIds(ps) == DestroyIds(ps0) + (if Leaves(Moved(e)) then [e.id] else [])
            && Ids(MoveAll(es)) == Ids(MoveAll(init)) + (if Leaves(Moved(e)) then [] else [e.id])
  {
    var ps := MovePackets(es);
    assert ps[..|ps| - 1] == MovePackets(es[..|es| - 1]);
  }

  // The erase loop keeps or destroys each entity, once.
  lemma {:induction false} MoveConserves(es: seq<Entity>, x: nat)
    ensures SpawnIds(MovePackets(es)) == []
    ensures Times(DestroyIds(MovePackets(es)), x) + Times(Ids(MoveAll(es)), x) == Times(Ids(es), x)
  {
    if |es| > 0 {
      var init, e := es[..|es| - 1], es[|es| - 1];
      MoveLast(es);
      MoveConserves(init, x);
      TimesConcat(Ids(init), [e.id], x);
      TimesConcat(DestroyIds(MovePackets(init)), if Leaves(Moved(e)) then [e.id] else [], x);
      TimesConcat(Ids(MoveAll(init)), if Leaves(Moved(e)) then [] else [e.id], x);
    } else {
      assert Ids(MoveAll(es)) == Ids(es) == [];
    }
  }

  lemma {:induction false} VolleyPackets(w: World, n: nat)
    requires n <= |w.entities|
    ensures forall p :: p in Volleys(w, n).packets ==> p.BossState?
  {
    if n > 0 { VolleyPackets(w, n - 1); }
  }

  lemma ConcatIds(a: seq<Entity>, b: seq<Entity>)
    ensures Ids(a + b) == Ids(a) + Ids(b)
  {
  }

  // What one section announces and destroys balances the change of the list.
  ghost predicate Balanced(w: World, s: Section) {
    && SpawnIds(Emitted(w, s)) == Ids(Spawned(w, s))
    && forall x :: Times(DestroyIds(Emitted(w, s)), x) + Times(Ids(Act(w, s).entities), x)
                == Times(Ids(w.entities), x) + Times(Ids(Spawned(w, s)), x)
  }

  // Sections that rewrite entities in place and tell nothing of births and deaths.
  lemma InPlaceBalances(w: World, s: Section)
    requires Ids(Act(w, s).entities) == Ids(w.entities)
    requires Spawned(w, s) == [] && SpawnIds(Emitted(w, s)) == [] == DestroyIds(Emitted(w, s))
    ensures Balanced(w, s)
  {
    assert Ids(Spawned(w, s)) == [];
  }

  // Sections that append the entities they announce.
  lemma AppendBalances(w: World, s: Section)
    requires Act(w, s).entities == w.entities + Spawned(w, s)
    requires SpawnIds(Emitted(w, s)) == Ids(Spawned(w, s)) && DestroyIds(Emitted(w, s)) == []
    ensures Balanced(w, s)
  {
    ConcatIds(w.entities, Spawned(w, s));
  }

  lemma MoveBalances(w: World)
    ensures Balanced(w, Move)
  {
    forall x { MoveConserves(w.entities, x); }
    MoveConserves(w.entities, 0);
    assert Ids(Spawned(w, Move)) == [];
  }

  lemma SpawnBossPackets(w: World)
    ensures SpawnIds(Emitted(w, SpawnBoss)) == Ids(Spawned(w, SpawnBoss)) && DestroyIds(Emitted(w, SpawnBoss)) == []
  {
    var more := Spawned(w, SpawnBoss);
    var bossState := Emitted(w, SpawnBoss)[|more|..];
    assert Emitted(w, SpawnBoss) == SpawnPackets(more) + bossState;
    NoIds(bossState);
    IdsOfConcat(SpawnPackets(more), bossState);
    IdsOfSpawns(more);
  }

  lemma CollideBalances(w: World, players: seq<Point>)
    ensures Balanced(w, Collide(players))
  {
    VolleyPackets(w, |w.entities|);
    assert ShotPhase(w) == Volleys(w, |w.entities|);
    hide Collided, ShotPhase, Balanced;
    NoIds(ShotPhase(w).packets);
    CollisionsResolved(w, players);
    InPlaceBalances(w, Collide(players));
  }

  lemma SyncBalances(w: World)
    ensures Balanced(w, Sync)
  {
    hide Balanced;
    NoIds([GlobalStateSync(Entries(w.entities))]);
    InPlaceBalances(w, Sync);
  }

  lemma LevelBalances(w: World, sin: real -> real)
    ensures Balanced(w, Level(sin))
  {
    hide Balanced;
    InPlaceBalances(w, Level(sin));
  }

  lemma SpawnBalances(w: World, s: Section)
    requires s.BossFire? || s.SpawnEnemy? || s.Shoot?
    ensures Balanced(w, s)
  {
    hide Balanced, BossFires, BossShots;
    IdsOfSpawns(Spawned(w, s));
    AppendBalances(w, s);
  }

  lemma SectionConserves(w: World, s: Section)
    ensures Balanced(w, s)
  {
    assert s.SpawnBoss? ==> Act(w, s).entities == w.entities + Spawned(w, s);
    assert s.Skip? ==> Act(w, s) == w && Spawned(w, s) == [] && Emitted(w, s) == [];
    hide Balanced, Act, Emitted, Spawned;
    match s
    case Move => MoveBalances(w);
    case Collide(players) => CollideBalances(w, players);
    case Sync => SyncBalances(w);
    case Level(sin) => LevelBalances(w, sin);
    case SpawnBoss =>
      SpawnBossPackets(w);
      AppendBalances(w, s);
    case Skip => InPlaceBalances(w, s);
    case _ => SpawnBalances(w, s);
  }

  lemma SpawnedIds(w: World, s: Section)
    requires w.nextId >= 1
    ensures Act(w, s).nextId == w.nextId + |Spawned(w, s)|
    ensures Below(w.nextId) + Ids(Spawned(w, s)) == Below(Act(w, s).nextId)
  {
    CounterMoves(w, s);
    SpawnedCount(w, s);
    hide Act, Spawned, Ids, Below;
    BelowMore(w.nextId, Ids(Spawned(w, s)));
  }

  lemma CounterMoves(w: World, s: Section)
    ensures Act(w, s).nextId == w.nextId + |Spawned(w, s)|
  {
    hide Volleys, BossFires;
    if s.Collide? { VolleysNextId(w, |w.entities|); }
  }

  // Spawned entities take the next ids in order.
  lemma SpawnedCount(w: World, s: Section)
    ensures |Ids(Spawned(w, s))| == |Spawned(w, s)|
    ensures forall i :: 0 <= i < |Spawned(w, s)| ==> Ids(Spawned(w, s))[i] == w.nextId + i
  {
    hide BossFires;
  }

  lemma BelowMore(n: nat, ids: seq<nat>)
    requires n >= 1 && forall i :: 0 <= i < |ids| ==> ids[i] == n + i
    ensures Below(n) + ids == Below(n + |ids|)
  {
  }

  lemma {:induction false} VolleysNextId(w: World, n: nat)
    requires n <= |w.entities|
    ensures Volleys(w, n).world.nextId == w.nextId
  {
    if n > 0 { VolleysNextId(w, n - 1); }
  }

  lemma {:induction false} IdsCounted(run: seq<Section>, x: nat)
    ensures Exec(START, run).nextId >= 1
    ensures SpawnIds(Emission(START, run)) == Below(Exec(START, run).nextId)
    ensures Times(DestroyIds(Emission(START, run)), x) + Times(Ids(Exec(START, run).entities), x)
         == Times(SpawnIds(Emission(START, run)), x)
  {
    if |run| == 0 {
      assert Ids([]) == [];
    } else {
      var before, s := run[..|run| - 1], run[|run| - 1];
      var w := Exec(START, before);
      IdsCounted(before, x);
      SectionConserves(w, s);
      SpawnedIds(w, s);
      IdsOfConcat(Emission(START, before), Emitted(w, s));
      TimesConcat(DestroyIds(Emission(START, before)), DestroyIds(Emitted(w, s)), x);
      TimesConcat(SpawnIds(Emission(START, before)), Ids(Spawned(w, s)), x);
    }
  }

  /** Over any run the announced ids are 1, 2, 3, ... in order, and the destroyed and the live ids
      together are exactly the announced ones, each once. */
  lemma IdsConserved(run: seq<Section>)
    ensures Exec(START, run).nextId >= 1
    ensures SpawnIds(Emission(START, run)) == Below(Exec(START, run).nextId)
    ensures multiset(DestroyIds(Emission(START, run))) + multiset(Ids(Exec(START, run).entities))
         == multiset(SpawnIds(Emission(START, run)))
  {
    IdsCounted(run, 0);
    var dead, live := DestroyIds(Emission(START, run)), Ids(Exec(START, run).entities);
    var born := SpawnIds(Emission(START, run));
    var all: multiset<nat>, births: multiset<nat> := multiset(dead) + multiset(live), multiset(born);
    forall x: nat ensures all[x] == births[x] {
      IdsCounted(run, x);
      assert Times(dead, x) + Times(live, x) == Times(born, x);
    }
    assert all == births;
  }

  lemma {:induction false} MultisetOfBelow(n: nat, x: nat)
    requires n >= 1
    ensures multiset(Below(n))[x] == if 1 <= x < n then 1 else 0
  {
    if n == 1 {
      assert Below(1) == [];
    } else {
      MultisetOfBelow(n - 1, x);
      assert Below(n) == Below(n - 1) + [n - 1];
    }
  }

  /** No id is destroyed twice, a destroyed id is never live again, and live ids are distinct and
      below the counter. */
  lemma NoIdTwice(run: seq<Section>)
    ensures var live, dead := Ids(Exec(START, run).entities), DestroyIds(Emission(START, run));
            && Distinct(live) && Distinct(dead)
            && (forall id :: id in live ==> id !in dead)
            && (forall id :: id in live ==> 1 <= id < Exec(START, run).nextId)
  {
    IdsConserved(run);
    ShareBelow(Ids(Exec(START, run).entities), DestroyIds(Emission(START, run)), Exec(START, run).nextId);
  }

  // Two sequences that share the numbers below n.
  lemma ShareBelow(live: seq<nat>, dead: seq<nat>, n: nat)
    requires n >= 1 && multiset(dead) + multiset(live) == multiset(Below(n))
    ensures Distinct(live) && Distinct(dead)
    ensures forall id :: id in live ==> id !in dead && 1 <= id < n
  {
    forall x: nat ensures multiset(live)[x] + multiset(dead)[x] == if 1 <= x < n then 1 else 0 {
      MultisetOfBelow(n, x);
      assert (multiset(dead) + multiset(live))[x] == multiset(dead)[x] + multiset(live)[x];
    }
    DistinctFromMultiset(live);
    DistinctFromMultiset(dead);
    forall id | id in live ensures id !in dead && 1 <= id < n {
      assert multiset(live)[id] >= 1;
    }
  }

  // ---------- how long an entity can live ----------

  // Number of updates begun in a run.
  function Moves(run: seq<Section>): nat {
    if |run| == 0 then 0 else Moves(run[..|run| - 1]) + if run[|run| - 1].Move? then 1 else 0
  }

  // Number of updates begun before the id was given out.
  function BornAt(run: seq<Section>, id: nat): nat {
    if |run| == 0 then 0
    else
      var before := run[..|run| - 1];
      if id < Exec(START, before).nextId then BornAt(before, id) else Moves(before)
  }

  // What is known of an entity after `age` updates. Enemies and boss shots only come nearer to the
  // left edge; player shots appear anywhere, but once on the screen move to the right edge.
  predicate OnCourse(e: Entity, age: int) {
    && age >= 0
    && match e.kind
       case 2 => e.vx == -5 && e.x <= 1920 - 5 * age && (age > 0 ==> e.x >= -20)
       case 3 => e.vx == -8 && e.x <= 1920 - 8 * age && (age > 0 ==> e.x >= -20)
       case 11 => e.vx == -15 && e.x <= 1600 - 15 * age && (age > 0 ==> e.x >= -20)
       case 1 => e.vx == 10 && (age > 0 ==> -20 + 10 * (age - 1) <= e.x <= 1920)
       case 4 => e.vx == 12 && (age > 0 ==> -20 + 12 * (age - 1) <= e.x <= 1920)
       case 10 => e.x <= 1600 && e.vx <= 0
       case _ => false
  }

  lemma OnCourseMoves(e: Entity, age: int)
    requires OnCourse(e, age) && !Leaves(Moved(e))
    ensures OnCourse(Moved(e), age + 1)
  {
  }

  lemma {:induction false} MoveAllFrom(es: seq<Entity>, e': Entity)
    requires e' in MoveAll(es)
    ensures exists e :: e in es && e' == Moved(e) && !Leaves(e')
  {
    var init, last := es[..|es| - 1], es[|es| - 1];
    if e' in MoveAll(init) {
      MoveAllFrom(init, e');
      var e :| e in init && e' == Moved(e) && !Leaves(e');
      assert e in es;
    } else {
      assert last in es;
    }
  }

  // What a section may do to an entity that it leaves in the list.
  predicate Follows(s: Section, e: Entity, e': Entity) {
    && e.id == e'.id && e.kind == e'.kind
    && (s.Move? ==> e' == Moved(e) && !Leaves(e'))
    && (!s.Move? ==> e'.x == e.x && (e.kind != BOSS ==> e'.vx == e.vx)
                     && (e.kind == BOSS && e.vx <= 0 ==> e'.vx <= 0))
  }

  lemma FollowsCourse(s: Section, e: Entity, e': Entity, age: int)
    requires Follows(s, e, e') && OnCourse(e, age)
    ensures OnCourse(e', if s.Move? then age + 1 else age)
  {
    if s.Move? { OnCourseMoves(e, age); }
  }

  // An entity in the list after a section was there before it, or has just been spawned.
  lemma Ancestor(w: World, s: Section, e': Entity) returns (e: Entity)
    requires e' in Act(w, s).entities
    ensures e.id == e'.id && ((e in w.entities && Follows(s, e, e')) || (e == e' && e in Spawned(w, s)))
  {
    var es' := Act(w, s).entities;
    if s.Move? {
      MoveAllFrom(w.entities, e');
      e :| e in w.entities && e' == Moved(e) && !Leaves(e');
    } else {
      if s.Collide? { CollisionsResolved(w, s.players); }
      var i :| 0 <= i < |es'| && es'[i] == e';
      e := if i < |w.entities| then w.entities[i] else e';
    }
  }

  lemma NewOnCourse(w: World, s: Section, e: Entity)
    requires e in Spawned(w, s)
    requires forall b :: b in w.entities && b.kind == BOSS ==> OnCourse(b, 0)
    ensures OnCourse(e, 0) && w.nextId <= e.id < Act(w, s).nextId && !s.Move?
  {
    if s.BossFire? {
      assert w.entities[FindBoss(w.entities, 0)] in w.entities;
    }
  }

  lemma CounterGrows(before: seq<Section>, s: Section)
    ensures Exec(START, before).nextId <= Act(Exec(START, before), s).nextId
  {
    IdsCounted(before, 0);
    SpawnedIds(Exec(START, before), s);
  }

  lemma BossOfAnyAge(b: Entity, age: int)
    requires b.kind == BOSS && OnCourse(b, age)
    ensures OnCourse(b, 0)
  {
  }

  lemma {:induction false} AllOnCourse(run: seq<Section>, e: Entity)
    requires e in Exec(START, run).entities
    ensures e.id < Exec(START, run).nextId
    ensures OnCourse(e, Moves(run) - BornAt(run, e.id))
  {
    hide Act, Spawned, OnCourse, Follows;
    if |run| > 0 {
      var before, s := run[..|run| - 1], run[|run| - 1];
      var w := Exec(START, before);
      forall b | b in w.entities && b.kind == BOSS ensures OnCourse(b, 0) {
        AllOnCourse(before, b);
        BossOfAnyAge(b, Moves(before) - BornAt(before, b.id));
      }
      CounterGrows(before, s);
      var d := Ancestor(w, s, e);
      if d in w.entities && Follows(s, d, e) {
        AllOnCourse(before, d);
        FollowsCourse(s, d, e, Moves(before) - BornAt(before, d.id));
      } else {
        NewOnCourse(w, s, e);
      }
    }
  }

  /** Whatever the players do, an entity that is not a boss is gone from the list 389 updates after
      it was spawned. */
  lemma LifetimeBound(run: seq<Section>, e: Entity)
    requires e in Exec(START, run).entities && e.kind != BOSS
    ensures Moves(run) - BornAt(run, e.id) < 389
  {
    hide Exec, Moves, BornAt;
    AllOnCourse(run, e);
  }
}
