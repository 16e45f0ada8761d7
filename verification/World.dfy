/** What each critical section of the server's game loop does to the world and to the wire.

    The server changes its entity list only while it holds the entity mutex, and queues the
    packets that tell of the change before it lets go. Each such section is one `Section` here,
    with its effect on the world (`Act`) and the packets it queues (`Emitted`). */
module World {
  import opened Protocol

  datatype Entity = Entity(
    id: nat, kind: nat, x: int, y: real, vx: int, vy: real, height: int, width: int, hit: bool)
  {
    function Pos(): Point { Point(x, y) }
  }

  const SHOT: nat := 1
  const ENEMY: nat := 2
  const FAST_ENEMY: nat := 3
  const CHARGED_SHOT: nat := 4
  const BOSS: nat := 10
  const BOSS_SHOT: nat := 11

  // bossLevel: 0 none yet, 1 first boss, 2 between bosses, 3 second boss, 4 victory.
  // Times are in milliseconds of play; 16 of them pass with each update.
  datatype World = World(
    entities: seq<Entity>, nextId: nat, time: nat,
    bossHP: int, bossLevel: nat, lastBossShot: int, bossDeath: int)

  const START := World([], 1, 0, 0, 0, 0, 0)

  datatype Section =
    | Move
    | Collide(players: seq<Point>)
    | Level(sin: real -> real)
    | SpawnBoss
    | BossFire
    | SpawnEnemy(spawnY: int)
    | Sync
    | Shoot(pos: Point, charged: bool)
    | Skip

  // ---------- moving and erasing ----------

  function Moved(e: Entity): Entity {
    e.(x := e.x + e.vx, y := e.y + e.vy)
  }

  predicate Leaves(e: Entity) {
    e.x > 1920 || e.x < -20 || e.hit
  }

  function MoveAll(es: seq<Entity>): seq<Entity> {
    if |es| == 0 then []
    else
      var e := Moved(es[|es| - 1]);
      MoveAll(es[..|es| - 1]) + if Leaves(e) then [] else [e]
  }

  function MovePacket(e: Entity): Packet {
    if Leaves(Moved(e)) then EntityDestroy(e.id) else EntityUpdate(e.id, Moved(e).Pos())
  }

  function MovePackets(es: seq<Entity>): seq<Packet> {
    seq(|es|, i requires 0 <= i < |es| => MovePacket(es[i]))
  }

  // The list while the erase loop stands before entry k.
  function Halfway(es: seq<Entity>, k: nat): seq<Entity>
    requires k <= |es|
  {
    MoveAll(es[..k]) + es[k..]
  }

  lemma HalfwayRound(es: seq<Entity>, k: nat)
    requires k < |es|
    ensures Halfway(es, k) == MoveAll(es[..k]) + [es[k]] + es[k + 1..]
    ensures Halfway(es, k + 1)
         == MoveAll(es[..k]) + (if Leaves(Moved(es[k])) then [] else [Moved(es[k])]) + es[k + 1..]
  {
    assert es[..k + 1][..k] == es[..k];
    assert es[k..] == [es[k]] + es[k + 1..];
  }

  // ---------- collisions ----------

  predicate Overlap(x1: int, y1: real, w1: int, h1: int, x2: int, y2: real, w2: int, h2: int) {
    x1 < x2 + w2 && x1 + w1 > x2 && y1 < y2 + h2 as real && y1 + h1 as real > y2
  }

  predicate Touch(a: Entity, b: Entity) {
    Overlap(a.x, a.y, a.width, a.height, b.x, b.y, b.width, b.height)
  }

  predicate IsShot(e: Entity) { e.kind == SHOT || e.kind == CHARGED_SHOT }

  predicate IsTarget(e: Entity) { e.kind == ENEMY || e.kind == FAST_ENEMY || e.kind == BOSS }

  predicate IsHazard(e: Entity) { e.kind == ENEMY || e.kind == FAST_ENEMY || e.kind == BOSS_SHOT }

  // Shot i can strike target j: both are live and they overlap.
  predicate Strikes(es: seq<Entity>, i: nat, j: nat)
    requires i < |es| && j < |es|
  {
    IsShot(es[i]) && IsTarget(es[j]) && !es[i].hit && !es[j].hit && Touch(es[i], es[j])
  }

  // The first target from index j on that shot i can strike; |es| when there is none.
  function FirstTarget(es: seq<Entity>, i: nat, j: nat): (t: nat)
    requires i < |es| && j <= |es|
    ensures j <= t <= |es|
    ensures t < |es| ==> Strikes(es, i, t)
    ensures forall k :: j <= k < t ==> !Strikes(es, i, k)
    decreases |es| - j
  {
    if j == |es| then j else if Strikes(es, i, j) then j else FirstTarget(es, i, j + 1)
  }

  function Damage(shot: Entity): int {
    if shot.kind == CHARGED_SHOT then 50 else 10
  }

  function MaxHp(w: World): int {
    if w.bossLevel == 3 then 2000 else 1000
  }

  function MarkHit(es: seq<Entity>, i: nat): (r: seq<Entity>)
    requires i < |es|
  {
    es[i := es[i].(hit := true)]
  }

  // Shot i strikes target j.
  function Struck(w: World, i: nat, j: nat): World
    requires i < |w.entities| && j < |w.entities|
  {
    var es := MarkHit(w.entities, i);
    if w.entities[j].kind == BOSS then
      var hp := w.bossHP - Damage(w.entities[i]);
      if hp > 0 then w.(entities := es, bossHP := hp)
      else
        var w' := w.(entities := MarkHit(es, j), bossHP := hp);
        if w.bossLevel == 1 then w'.(bossLevel := 2, bossDeath := w.time)
        else if w.bossLevel == 3 then w'.(bossLevel := 4)
        else w'
    else w.(entities := MarkHit(es, j))
  }

  // A record of the projectile phase: which shot struck which target (indices), in order.
  datatype Strike = Strike(shot: nat, target: nat)
  datatype Volley = Volley(world: World, strikes: seq<Strike>, packets: seq<Packet>)

  // What shot i adds to the volley.
  function Fire(v: Volley, i: nat): (r: Volley)
    requires i < |v.world.entities|
    ensures |r.world.entities| == |v.world.entities|
  {
    var w := v.world;
    var j := FirstTarget(w.entities, i, 0);
    if j == |w.entities| then v else Landed(v, i, j)
  }

  function Landed(v: Volley, i: nat, j: nat): (r: Volley)
    requires i < |v.world.entities| && j < |v.world.entities|
    ensures |r.world.entities| == |v.world.entities|
  {
    var w := v.world;
    Volley(Struck(w, i, j), v.strikes + [Strike(i, j)],
           v.packets + if w.entities[j].kind == BOSS
                       then [BossState(w.bossHP - Damage(w.entities[i]), MaxHp(w))] else [])
  }

  // The projectile phase after the first n entities have been considered as shots.
  function Volleys(w: World, n: nat): (v: Volley)
    requires n <= |w.entities|
    ensures |v.world.entities| == |w.entities|
  {
    if n == 0 then Volley(w, [], []) else Fire(Volleys(w, n - 1), n - 1)
  }

  function ShotPhase(w: World): Volley {
    Volleys(w, |w.entities|)
  }

  predicate Rammed(e: Entity, p: Point) {
    IsHazard(e) && Overlap(p.x, p.y, 60, 30, e.x, e.y, e.width, e.height)
  }

  function Singed(e: Entity, players: seq<Point>): Entity {
    if exists k :: 0 <= k < |players| && Rammed(e, players[k]) then e.(hit := true) else e
  }

  // Hazards that touch a player are marked.
  function PlayerPhase(es: seq<Entity>, players: seq<Point>): seq<Entity> {
    seq(|es|, i requires 0 <= i < |es| => Singed(es[i], players))
  }

  function Collided(w: World, players: seq<Point>): World {
    var v := ShotPhase(w).world;
    v.(entities := PlayerPhase(v.entities, players))
  }

  // ---------- level and steering ----------

  function Seconds(ms: nat): real { ms as real / 1000.0 }

  function Steer(e: Entity, time: nat, bossLevel: nat, sin: real -> real): Entity {
    if e.kind == BOSS then
      if e.x > 1500 then e.(vx := -2, vy := 0.0)
      else if bossLevel == 3 then e.(vx := 0, vy := 8.0 * sin(Seconds(time) * 4.0))
      else e.(vx := 0, vy := 3.0 * sin(Seconds(time)))
    else if time > 60000 && (e.kind == ENEMY || e.kind == FAST_ENEMY) then
      e.(vy := 5.0 * sin(Seconds(time) * 2.0 + e.id as real))
    else e
  }

  function SteerAll(es: seq<Entity>, time: nat, bossLevel: nat, sin: real -> real): seq<Entity> {
    seq(|es|, i requires 0 <= i < |es| => Steer(es[i], time, bossLevel, sin))
  }

  // ---------- spawning ----------

  function NewShot(id: nat, pos: Point, charged: bool): Entity {
    if charged then Entity(id, CHARGED_SHOT, pos.x + 25, pos.y, 12, 0.0, 29, 30, false)
    else Entity(id, SHOT, pos.x + 25, pos.y, 10, 0.0, 10, 5, false)
  }

  function NewEnemy(id: nat, time: nat, spawnY: int): Entity {
    if time > 30000 then Entity(id, FAST_ENEMY, 1920, spawnY as real, -8, 0.0, 40, 40, false)
    else Entity(id, ENEMY, 1920, spawnY as real, -5, 0.0, 32, 32, false)
  }

  function NewBoss(id: nat): Entity {
    Entity(id, BOSS, 1600, 400.0, -2, 0.0, 296, 88, false)
  }

  function NewBossShot(id: nat, boss: Point, vy: real): Entity {
    Entity(id, BOSS_SHOT, boss.x, boss.y + 80.0, -15, vy, 30, 30, false)
  }

  // The boss level to enter now, if it is time for a boss.
  function BossDue(w: World): (level: nat) {
    if w.bossLevel == 0 && w.time > 10000 then 1
    else if w.bossLevel == 2 && w.time > w.bossDeath then 3
    else 0
  }

  function BossHealth(level: nat): int { if level == 3 then 2000 else 1000 }

  // The first boss in the list, marked or not; |es| when there is none.
  function FindBoss(es: seq<Entity>, i: nat): (b: nat)
    requires i <= |es|
    ensures i <= b <= |es|
    ensures b < |es| ==> es[b].kind == BOSS
    decreases |es| - i
  {
    if i == |es| || es[i].kind == BOSS then i else FindBoss(es, i + 1)
  }

  predicate BossFires(w: World) {
    && (w.bossLevel == 1 || w.bossLevel == 3)
    && FindBoss(w.entities, 0) < |w.entities|
    && w.time - w.lastBossShot > if w.bossLevel == 3 then 1000 else 1500
  }

  function BossShots(w: World): seq<Entity>
    requires BossFires(w)
  {
    var at := w.entities[FindBoss(w.entities, 0)].Pos();
    if w.bossLevel == 3 then
      [NewBossShot(w.nextId, at, -5.0), NewBossShot(w.nextId + 1, at, 0.0), NewBossShot(w.nextId + 2, at, 5.0)]
    else [NewBossShot(w.nextId, at, 0.0)]
  }

  // The entities a section appends to the list.
  function Spawned(w: World, s: Section): seq<Entity> {
    match s
    case SpawnBoss => if BossDue(w) > 0 then [NewBoss(w.nextId)] else []
    case BossFire => if BossFires(w) then BossShots(w) else []
    case SpawnEnemy(y) => [NewEnemy(w.nextId, w.time, y)]
    case Shoot(pos, charged) => [NewShot(w.nextId, pos, charged)]
    case _ => []
  }

  function SpawnPacket(e: Entity): Packet {
    EntitySpawn(e.id, e.kind, e.Pos())
  }

  function SpawnPackets(es: seq<Entity>): seq<Packet> {
    seq(|es|, i requires 0 <= i < |es| => SpawnPacket(es[i]))
  }

  function Entries(es: seq<Entity>): seq<Entry<Point>> {
    seq(|es|, i requires 0 <= i < |es| => Entry(es[i].id, es[i].kind, es[i].Pos()))
  }

  // ---------- sections ----------

  function Appended(w: World, es: seq<Entity>): World {
    w.(entities := w.entities + es, nextId := w.nextId + |es|)
  }

  function Act(w: World, s: Section): World {
    match s
    case Move => w.(entities := MoveAll(w.entities))
    case Collide(players) => Collided(w, players)
    case Level(sin) =>
      var time := w.time + 16;
      w.(time := time, entities := SteerAll(w.entities, time, w.bossLevel, sin))
    case SpawnBoss =>
      var w' := Appended(w, Spawned(w, s));
      if BossDue(w) > 0 then w'.(bossLevel := BossDue(w), bossHP := BossHealth(BossDue(w))) else w'
    case BossFire =>
      var w' := Appended(w, Spawned(w, s));
      if BossFires(w) then w'.(lastBossShot := w.time) else w'
    case SpawnEnemy(_) => Appended(w, Spawned(w, s))
    case Shoot(_, _) => Appended(w, Spawned(w, s))
    case Sync => w
    case Skip => w
  }

  function Emitted(w: World, s: Section): seq<Packet> {
    match s
    case Move => MovePackets(w.entities)
    case Collide(_) => ShotPhase(w).packets
    case SpawnBoss =>
      SpawnPackets(Spawned(w, s))
      + if BossDue(w) > 0 then [BossState(BossHealth(BossDue(w)), BossHealth(BossDue(w)))] else []
    case Sync => [GlobalStateSync(Entries(w.entities))]
    case _ => SpawnPackets(Spawned(w, s))
  }

  // ---------- runs ----------

  // Runs are grown at the end, like the history of the server.
  function Exec(w: World, run: seq<Section>): World {
    if |run| == 0 then w else Act(Exec(w, run[..|run| - 1]), run[|run| - 1])
  }

  lemma ExecNext(w: World, run: seq<Section>, s: Section)
    ensures Exec(w, run + [s]) == Act(Exec(w, run), s)
  {
    hide Act;
    assert (run + [s])[..|run|] == run;
  }

  lemma {:induction false} ExecConcat(w: World, a: seq<Section>, b: seq<Section>)
    ensures Exec(w, a + b) == Exec(Exec(w, a), b)
  {
    hide Act, Exec;
    if |b| == 0 {
      assert a + b == a;
      ExecNothing(Exec(w, a));
    } else {
      var init, last := b[..|b| - 1], b[|b| - 1];
      ExecConcat(w, a, init);
      assert b == init + [last] && a + b == (a + init) + [last];
      ExecNext(w, a + init, last);
      ExecNext(Exec(w, a), init, last);
    }
  }

  lemma ExecNothing(w: World)
    ensures Exec(w, []) == w
  {
  }

  function Emission(w: World, run: seq<Section>): seq<Packet> {
    if |run| == 0 then []
    else
      var before := run[..|run| - 1];
      Emission(w, before) + Emitted(Exec(w, before), run[|run| - 1])
  }

  // The game loop takes its sections in a fixed cycle; shots arrive from the network thread
  // between any two of them. An update begins and ends at AtMove.
  datatype Phase = AtMove | AtCollide | AtLevel | AtBoss | AtFire | AtEnemy | AtSync

  predicate Allowed(ph: Phase, s: Section) {
    s.Shoot? ||
    match ph
    case AtMove => s.Move?
    case AtCollide => s.Collide?
    case AtLevel => s.Level?
    case AtBoss => s.SpawnBoss?
    case AtFire => s.BossFire?
    case AtEnemy => s.SpawnEnemy? || s.Skip?
    case AtSync => s.Sync? || s.Skip?
  }

  function After(ph: Phase, s: Section): Phase {
    if s.Shoot? then ph else
    match ph
    case AtMove => AtCollide
    case AtCollide => AtLevel
    case AtLevel => AtBoss
    case AtBoss => AtFire
    case AtFire => AtEnemy
    case AtEnemy => AtSync
    case AtSync => AtMove
  }

  function PhaseOf(run: seq<Section>): Phase {
    if |run| == 0 then AtMove else After(PhaseOf(run[..|run| - 1]), run[|run| - 1])
  }

  predicate Legal(run: seq<Section>) {
    |run| == 0 || (Legal(run[..|run| - 1]) && Allowed(PhaseOf(run[..|run| - 1]), run[|run| - 1]))
  }

  lemma LegalNext(run: seq<Section>, s: Section)
    ensures Legal(run + [s]) <==> Legal(run) && Allowed(PhaseOf(run), s)
    ensures PhaseOf(run + [s]) == After(PhaseOf(run), s)
  {
    hide Allowed, After;
    assert (run + [s])[..|run|] == run;
  }
}
