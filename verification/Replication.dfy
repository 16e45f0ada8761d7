/** The client's picture refines the server's entity list. */
module Replication {
  import opened Protocol
  import opened World
  import opened Mirror
  import Collisions
  import Lifecycle

  ghost predicate DistinctIds(es: seq<Entity>) {
    forall i, j :: 0 <= i < j < |es| ==> es[i].id != es[j].id
  }

  // The picture shows exactly the entities of the list, each where and what it is.
  ghost predicate Mirrors(m: Entities<Point>, es: seq<Entity>) {
    && (forall e :: e in es ==> e.id in m && m[e.id] == Seen(e.kind, e.Pos()))
    && (forall id :: id in m ==> exists e :: e in es && e.id == id)
  }

  // ---------- one section ----------

  lemma AppendMirrors(m: Entities<Point>, es: seq<Entity>, e: Entity)
    requires Mirrors(m, es) && DistinctIds(es + [e])
    ensures Mirrors(Apply(m, SpawnPacket(e)), es + [e])
  {
    var all := es + [e];
    assert all[|es|] == e;
    forall d | d in es ensures d.id != e.id && d in all {
      var i :| 0 <= i < |es| && es[i] == d;
      assert all[i] == d;
    }
    var m' := Apply(m, SpawnPacket(e));
    forall id | id in m' ensures exists d :: d in all && d.id == id {
      if id != e.id {
        var d :| d in es && d.id == id;
        assert d in all;
      }
    }
  }

  lemma {:induction false} SpawnsMirror(m: Entities<Point>, es: seq<Entity>, more: seq<Entity>)
    requires Mirrors(m, es) && DistinctIds(es + more)
    ensures Mirrors(ApplyAll(m, SpawnPackets(more)), es + more)
  {
    if |more| == 0 {
      assert es + more == es;
    } else {
      var init, e := more[..|more| - 1], more[|more| - 1];
      assert es + more == (es + init) + [e];
      assert DistinctIds(es + init) by {
        assert forall i :: 0 <= i < |es + init| ==> (es + init)[i] == (es + more)[i];
      }
      SpawnsMirror(m, es, init);
      assert SpawnPackets(more)[..|more| - 1] == SpawnPackets(init);
      AppendMirrors(ApplyAll(m, SpawnPackets(init)), es + init, e);
    }
  }

  // One round of the erase loop: list entry k goes, or moves.
  lemma RoundMirrors(m: Entities<Point>, done: seq<Entity>, e: Entity, rest: seq<Entity>)
    requires Mirrors(m, done + [e] + rest)
    requires forall d :: d in done || d in rest ==> d.id != e.id
    ensures Mirrors(Apply(m, MovePacket(e)),
                    done + (if Leaves(Moved(e)) then [] else [Moved(e)]) + rest)
  {
    var before := done + [e] + rest;
    var m' := Apply(m, MovePacket(e));
    var now := if Leaves(Moved(e)) then [] else [Moved(e)];
    var after := done + now + rest;
    assert e in before;
    forall d | d in after
      ensures d.id in m' && m'[d.id] == Seen(d.kind, d.Pos())
    {
      if d in now {
      } else {
        assert d in before;
      }
    }
    forall id | id in m' ensures exists d :: d in after && d.id == id {
      var d :| d in before && d.id == id;
      if d == e {
        assert Moved(e) in now;
        assert Moved(e) in after;
      } else {
        assert d in after;
      }
    }
  }

  lemma ApplyNext(m: Entities<Point>, ps: seq<Packet>, k: nat)
    requires k < |ps|
    ensures ApplyAll(m, ps[..k + 1]) == Apply(ApplyAll(m, ps[..k]), ps[k])
  {
    assert ps[..k + 1][..k] == ps[..k];
  }

  lemma {:induction false} MoveMirrors(m: Entities<Point>, es: seq<Entity>, k: nat)
    requires Mirrors(m, es) && DistinctIds(es) && k <= |es|
    ensures Mirrors(ApplyAll(m, MovePackets(es)[..k]), Halfway(es, k))
  {
    if k == 0 {
      assert Halfway(es, 0) == es;
    } else {
      var j := k - 1;
      MoveMirrors(m, es, j);
      HalfwayRound(es, j);
      ApplyNext(m, MovePackets(es), j);
      forall d | d in MoveAll(es[..j]) ensures d.id != es[j].id {
        Lifecycle.MoveAllFrom(es[..j], d);
      }
      RoundMirrors(ApplyAll(m, MovePackets(es)[..j]), MoveAll(es[..j]), es[j], es[k..]);
    }
  }

  // Packets that are no business of the picture.
  lemma {:induction false} OthersIgnored(m: Entities<Point>, ps: seq<Packet>)
    requires forall p :: p in ps ==> p.BossState?
    ensures ApplyAll(m, ps) == m
  {
    if |ps| > 0 {
      assert ps[|ps| - 1] in ps;
      OthersIgnored(m, ps[..|ps| - 1]);
    }
  }

  // Rewriting marks and velocities does not change what is shown.
  lemma SameMirrors(m: Entities<Point>, es: seq<Entity>, es': seq<Entity>)
    requires Mirrors(m, es) && |es'| == |es|
    requires forall i :: 0 <= i < |es| ==>
               es'[i].id == es[i].id && es'[i].kind == es[i].kind && es'[i].Pos() == es[i].Pos()
    ensures Mirrors(m, es')
  {
    forall e | e in es' ensures e.id in m && m[e.id] == Seen(e.kind, e.Pos()) {
      var i :| 0 <= i < |es'| && es'[i] == e;
      assert es[i] in es;
    }
    forall id | id in m ensures exists e :: e in es' && e.id == id {
      var d :| d in es && d.id == id;
      var i :| 0 <= i < |es| && es[i] == d;
      assert es'[i] in es';
    }
  }

  // The ids below the local ones that a sync leaves out, because they come after the 72nd record.
  predicate TailIsLocal(es: seq<Entity>) {
    forall j :: 72 <= j < |es| ==> es[j].id >= 9999
  }

  // What a picture holds after a sync: the records that fit, and the client's own ids.
  lemma SyncLooksUp(m: Entities<Point>, es: seq<Entity>)
    requires DistinctIds(es)
    ensures var m' := Apply(m, GlobalStateSync(Entries(es)));
            && (forall i :: 0 <= i < |es| && i < SYNC_CAPACITY ==>
                  es[i].id in m' && m'[es[i].id] == Seen(es[i].kind, es[i].Pos()))
            && (forall id :: (forall i :: 0 <= i < |es| && i < SYNC_CAPACITY ==> es[i].id != id) ==>
                  (id in m' <==> id in m && id >= FIRST_LOCAL_ID) && (id in m' ==> m'[id] == m[id]))
  {
    var entries := Fit(Entries(es));
    LoadLooksUp(LocalOnly(m), entries);
    var m' := Apply(m, GlobalStateSync(Entries(es)));
    forall i | 0 <= i < |es| && i < SYNC_CAPACITY
      ensures es[i].id in m' && m'[es[i].id] == Seen(es[i].kind, es[i].Pos())
    {
      assert entries[i].id == es[i].id;
    }
    forall id | forall i :: 0 <= i < |es| && i < SYNC_CAPACITY ==> es[i].id != id
      ensures (id in m' <==> id in m && id >= FIRST_LOCAL_ID) && (id in m' ==> m'[id] == m[id])
    {
      assert forall i :: 0 <= i < |entries| ==> entries[i].id == es[i].id;
    }
  }

  lemma SyncKeeps(m: Entities<Point>, es: seq<Entity>)
    requires Mirrors(m, es) && DistinctIds(es) && TailIsLocal(es)
    ensures Mirrors(Apply(m, GlobalStateSync(Entries(es))), es)
  {
    hide Apply, Entries;
    var m' := Apply(m, GlobalStateSync(Entries(es)));
    SyncLooksUp(m, es);
    forall e | e in es ensures e.id in m' && m'[e.id] == Seen(e.kind, e.Pos()) {
      var i :| 0 <= i < |es| && es[i] == e;
      if i >= SYNC_CAPACITY {
        assert forall k :: 0 <= k < |es| && k < SYNC_CAPACITY ==> es[k].id != e.id;
      }
    }
    forall id | id in m' ensures exists e :: e in es && e.id == id {
      if forall i :: 0 <= i < |es| && i < SYNC_CAPACITY ==> es[i].id != id {
        assert id in m;
      } else {
        var i :| 0 <= i < |es| && i < SYNC_CAPACITY && es[i].id == id;
        assert es[i] in es;
      }
    }
  }

  lemma SyncLoses(m: Entities<Point>, es: seq<Entity>)
    requires DistinctIds(es) && !TailIsLocal(es)
    ensures !Mirrors(Apply(m, GlobalStateSync(Entries(es))), es)
  {
    hide Apply, Entries;
    SyncLooksUp(m, es);
    var j :| SYNC_CAPACITY <= j < |es| && es[j].id < FIRST_LOCAL_ID;
    assert forall i :: 0 <= i < |es| && i < SYNC_CAPACITY ==> es[i].id != es[j].id;
    assert es[j].id !in Apply(m, GlobalStateSync(Entries(es)));
    assert es[j] in es;
  }

  /** A sync keeps a true picture true exactly when every entity past the 72nd has an id that the
      client takes for its own. */
  lemma SyncExact(m: Entities<Point>, es: seq<Entity>)
    requires Mirrors(m, es) && DistinctIds(es)
    ensures Mirrors(Apply(m, GlobalStateSync(Entries(es))), es) <==> TailIsLocal(es)
  {
    hide Apply, Entries, Mirrors, DistinctIds;
    if TailIsLocal(es) { SyncKeeps(m, es); } else { SyncLoses(m, es); }
  }

  lemma MoveSectionMirrors(m: Entities<Point>, es: seq<Entity>)
    requires Mirrors(m, es) && DistinctIds(es)
    ensures Mirrors(ApplyAll(m, MovePackets(es)), MoveAll(es))
  {
    MoveMirrors(m, es, |es|);
    assert MovePackets(es)[..|es|] == MovePackets(es);
    assert es[..|es|] == es && Halfway(es, |es|) == MoveAll(es);
  }

  lemma CollideMirrors(w: World, players: seq<Point>, m: Entities<Point>)
    requires Mirrors(m, w.entities)
    ensures Mirrors(ApplyAll(m, ShotPhase(w).packets), Collided(w, players).entities)
  {
    Lifecycle.VolleyPackets(w, |w.entities|);
    OthersIgnored(m, ShotPhase(w).packets);
    Collisions.CollisionsResolved(w, players);
    SameMirrors(m, w.entities, Collided(w, players).entities);
  }

  lemma SpawnBossMirrors(w: World, m: Entities<Point>)
    requires Mirrors(m, w.entities) && DistinctIds(w.entities + Spawned(w, SpawnBoss))
    ensures Mirrors(ApplyAll(m, Emitted(w, SpawnBoss)), w.entities + Spawned(w, SpawnBoss))
  {
    var spawns := SpawnPackets(Spawned(w, SpawnBoss));
    var bossState := Emitted(w, SpawnBoss)[|spawns|..];
    assert Emitted(w, SpawnBoss) == spawns + bossState;
    SpawnsMirror(m, w.entities, Spawned(w, SpawnBoss));
    ApplyAllConcat(m, spawns, bossState);
    OthersIgnored(ApplyAll(m, spawns), bossState);
  }

  lemma OnePacket(m: Entities<Point>, p: Packet)
    ensures ApplyAll(m, [p]) == Apply(m, p)
  {
    assert [p][..0] == [];
  }

  lemma NothingArrives(m: Entities<Point>)
    ensures ApplyAll(m, []) == m
  {
  }

  // A sync that loses nothing: nobody below the local ids comes after the 72nd record. That is so if
  // there are at most 72 entities.
  predicate Harmless(w: World, s: Section) {
    s.Sync? ==> TailIsLocal(w.entities)
  }

  lemma SectionMirrors(w: World, s: Section, m: Entities<Point>)
    requires Mirrors(m, w.entities) && DistinctIds(w.entities) && DistinctIds(Act(w, s).entities)
    requires Harmless(w, s)
    ensures Mirrors(ApplyAll(m, Emitted(w, s)), Act(w, s).entities)
  {
    assert s.Skip? ==> Emitted(w, s) == [] && Act(w, s) == w;
    hide Mirrors, DistinctIds, ApplyAll, Apply, TailIsLocal, BossFires;
    match s
    case Move => MoveSectionMirrors(m, w.entities);
    case Collide(players) => CollideMirrors(w, players, m);
    case Level(_) =>
      NothingArrives(m);
      SameMirrors(m, w.entities, Act(w, s).entities);
    case Sync =>
      SyncExact(m, w.entities);
      OnePacket(m, GlobalStateSync(Entries(w.entities)));
    case SpawnBoss => SpawnBossMirrors(w, m);
    case Skip => NothingArrives(m);
    case _ => SpawnsMirror(m, w.entities, Spawned(w, s));
  }

  // ---------- runs ----------

  lemma ReachableDistinct(run: seq<Section>)
    ensures DistinctIds(Exec(START, run).entities)
    ensures forall e :: e in Exec(START, run).entities ==> e.id < Exec(START, run).nextId
  {
    hide Exec;
    Lifecycle.NoIdTwice(run);
    var es := Exec(START, run).entities;
    var ids := Lifecycle.Ids(es);
    assert forall i :: 0 <= i < |es| ==> ids[i] == es[i].id && ids[i] in ids;
  }

  // The true picture of a list.
  function View(es: seq<Entity>): Entities<Point> {
    Load(map[], Entries(es))
  }

  lemma ViewMirrors(es: seq<Entity>)
    requires DistinctIds(es)
    ensures Mirrors(View(es), es)
  {
    LoadLooksUp(map[], Entries(es));
    forall e | e in es ensures e.id in View(es) && View(es)[e.id] == Seen(e.kind, e.Pos()) {
      var i :| 0 <= i < |es| && es[i] == e;
      assert Entries(es)[i].id == e.id;
    }
    forall id | id in View(es) ensures exists e :: e in es && e.id == id {
      var i :| 0 <= i < |es| && Entries(es)[i].id == id;
      assert es[i] in es;
    }
  }

  lemma MirrorsUnique(m: Entities<Point>, n: Entities<Point>, es: seq<Entity>)
    requires Mirrors(m, es) && Mirrors(n, es)
    ensures m == n
  {
  }

  lemma SectionViews(w: World, s: Section)
    requires DistinctIds(w.entities) && DistinctIds(Act(w, s).entities) && Harmless(w, s)
    ensures ApplyAll(View(w.entities), Emitted(w, s)) == View(Act(w, s).entities)
  {
    hide Mirrors, DistinctIds, ApplyAll, View, Act, Emitted, Harmless;
    ViewMirrors(w.entities);
    SectionMirrors(w, s, View(w.entities));
    ViewMirrors(Act(w, s).entities);
    MirrorsUnique(ApplyAll(View(w.entities), Emitted(w, s)), View(Act(w, s).entities), Act(w, s).entities);
  }

  // ---------- what a picture lacks ----------

  // The entities that a sync leaves out of the picture: those past the 72nd record, unless the client
  // takes their ids for its own and has them.
  function LeftOut(es: seq<Entity>, lacking: set<nat>): set<nat> {
    set j | SYNC_CAPACITY <= j < |es| && (es[j].id < FIRST_LOCAL_ID || es[j].id in lacking) :: es[j].id
  }

  // What a picture that lacks these ids lacks after a section: a sync decides anew, and otherwise an id
  // is lacking until its entity is destroyed.
  function Lacks(w: World, s: Section, lacking: set<nat>): set<nat> {
    if s.Sync? then LeftOut(w.entities, lacking)
    else set id | id in lacking && id in View(Act(w, s).entities)
  }

  // Packets that do not announce what is lacking.
  predicate Strange(p: Packet, lost: set<nat>) {
    !p.GlobalStateSync? && (p.EntitySpawn? ==> p.id !in lost)
  }

  lemma ApplyWithout(m: Entities<Point>, p: Packet, lost: set<nat>)
    requires Strange(p, lost)
    ensures Apply(m - lost, p) == Apply(m, p) - lost
  {
  }

  lemma {:induction false} ApplyAllWithout(m: Entities<Point>, ps: seq<Packet>, lost: set<nat>)
    requires forall p :: p in ps ==> Strange(p, lost)
    ensures ApplyAll(m - lost, ps) == ApplyAll(m, ps) - lost
  {
    hide Apply, Strange;
    if |ps| > 0 {
      var init, last := ps[..|ps| - 1], ps[|ps| - 1];
      assert ps == init + [last];
      ApplyAllWithout(m, init, lost);
      ApplyWithout(ApplyAll(m, init), last, lost);
    }
  }

  lemma SpawnsAreNew(es: seq<Entity>, next: nat)
    requires forall e :: e in es ==> e.id >= next
    ensures forall p :: p in SpawnPackets(es) ==> p.EntitySpawn? && p.id >= next
  {
    assert forall i :: 0 <= i < |es| ==> es[i] in es;
  }

  lemma SpawnedNew(w: World, s: Section)
    ensures forall e :: e in Spawned(w, s) ==> e.id >= w.nextId
  {
    Lifecycle.SpawnedCount(w, s);
    var more := Spawned(w, s);
    hide Spawned;
    assert forall i :: 0 <= i < |more| ==> Lifecycle.Ids(more)[i] == more[i].id;
  }

  lemma PacketsAreStrange(w: World, s: Section, lost: set<nat>)
    requires !s.Sync? && forall id :: id in lost ==> id < w.nextId
    ensures forall p :: p in Emitted(w, s) ==> Strange(p, lost)
  {
    SpawnedNew(w, s);
    SpawnsAreNew(Spawned(w, s), w.nextId);
    if s.Collide? { Lifecycle.VolleyPackets(w, |w.entities|); }
    hide Spawned, SpawnPackets, Volleys, Leaves;
  }

  lemma SyncLeavesOut(es: seq<Entity>, lacking: set<nat>)
    requires DistinctIds(es)
    ensures Apply(View(es) - lacking, GlobalStateSync(Entries(es))) == View(es) - LeftOut(es, lacking)
  {
    hide Apply, View, Entries;
    var m' := Apply(View(es) - lacking, GlobalStateSync(Entries(es)));
    SyncLooksUp(View(es) - lacking, es);
    ViewMirrors(es);
    forall id: nat
      ensures id in m' <==> id in View(es) && id !in LeftOut(es, lacking)
      ensures id in m' ==> m'[id] == View(es)[id]
    {
      SyncLeavesOutId(es, lacking, m', id);
    }
  }

  lemma SyncLeavesOutId(es: seq<Entity>, lacking: set<nat>, m': Entities<Point>, id: nat)
    requires DistinctIds(es) && Mirrors(View(es), es)
    requires forall i :: 0 <= i < |es| && i < SYNC_CAPACITY ==>
               es[i].id in m' && m'[es[i].id] == Seen(es[i].kind, es[i].Pos())
    requires (forall i :: 0 <= i < |es| && i < SYNC_CAPACITY ==> es[i].id != id) ==>
               && (id in m' <==> id in View(es) - lacking && id >= FIRST_LOCAL_ID)
               && (id in m' ==> m'[id] == View(es)[id])
    ensures id in m' <==> id in View(es) && id !in LeftOut(es, lacking)
    ensures id in m' ==> m'[id] == View(es)[id]
  {
    hide View;
    if id in View(es) {
      var e :| e in es && e.id == id;
      var j :| 0 <= j < |es| && es[j] == e;
      assert forall i :: 0 <= i < |es| && es[i].id == id ==> i == j;
    } else {
      assert forall i :: 0 <= i < |es| ==> es[i] in es && es[i].id != id;
    }
  }

  // One section, seen by a client whose picture lacks some of the entities.
  lemma SectionLacks(w: World, s: Section, lacking: set<nat>)
    requires DistinctIds(w.entities) && DistinctIds(Act(w, s).entities)
    requires forall id :: id in lacking ==> id < w.nextId
    ensures ApplyAll(View(w.entities) - lacking, Emitted(w, s)) == View(Act(w, s).entities) - Lacks(w, s, lacking)
  {
    hide DistinctIds, ApplyAll, View, Apply, Strange;
    if s.Sync? {
      OnePacket(View(w.entities) - lacking, GlobalStateSync(Entries(w.entities)));
      SyncLeavesOut(w.entities, lacking);
    } else {
      PacketsAreStrange(w, s, lacking);
      ApplyAllWithout(View(w.entities), Emitted(w, s), lacking);
      SectionViews(w, s);
      assert View(Act(w, s).entities) - lacking == View(Act(w, s).entities) - Lacks(w, s, lacking);
    }
  }

  // A server, a client and the packets in flight between them. `lacking` is computed from the sections
  // alone: the ids that the client's picture lacks after the packets in flight.
  datatype Net = Net(history: seq<Section>, inFlight: seq<Packet>, client: Entities<Point>, lacking: set<nat>)
  datatype NetStep = Serve(s: Section) | Deliver

  predicate Enabled(n: Net, step: NetStep) {
    step.Deliver? ==> |n.inFlight| > 0
  }

  function Next(n: Net, step: NetStep): Net
    requires Enabled(n, step)
  {
    match step
    case Serve(s) =>
      var w := Exec(START, n.history);
      Net(n.history + [s], n.inFlight + Emitted(w, s), n.client, Lacks(w, s, n.lacking))
    case Deliver =>
      n.(inFlight := n.inFlight[1..], client := Apply(n.client, n.inFlight[0]))
  }

  function Listed(n: Net): seq<Entity> {
    Exec(START, n.history).entities
  }

  // The packets in flight lead the client to the picture of the server as it is now, but for what it lacks.
  ghost predicate Refines(n: Net) {
    && ApplyAll(n.client, n.inFlight) == View(Listed(n)) - n.lacking
    && n.lacking <= View(Listed(n)).Keys
  }

  lemma LackingKnown(es: seq<Entity>, lacking: set<nat>, next: nat)
    requires DistinctIds(es) && lacking <= View(es).Keys && forall e :: e in es ==> e.id < next
    ensures forall id :: id in lacking ==> id < next
  {
    hide View;
    ViewMirrors(es);
  }

  lemma LacksListed(w: World, s: Section, lacking: set<nat>)
    requires DistinctIds(w.entities)
    ensures Lacks(w, s, lacking) <= View(Act(w, s).entities).Keys
  {
    hide View, DistinctIds;
    if s.Sync? {
      ViewMirrors(w.entities);
      assert forall j :: 0 <= j < |w.entities| ==> w.entities[j] in w.entities;
    }
  }

  lemma ServeRefines(n: Net, s: Section)
    requires Refines(n)
    ensures Refines(Next(n, Serve(s)))
  {
    hide ApplyAll, View, Emitted, Act, DistinctIds, Lacks;
    var w := Exec(START, n.history);
    ExecNext(START, n.history, s);
    ReachableDistinct(n.history);
    ReachableDistinct(n.history + [s]);
    LackingKnown(w.entities, n.lacking, w.nextId);
    SectionLacks(w, s, n.lacking);
    LacksListed(w, s, n.lacking);
    ApplyAllConcat(n.client, n.inFlight, Emitted(w, s));
  }

  lemma DeliverRefines(n: Net)
    requires Refines(n) && |n.inFlight| > 0
    ensures Refines(Next(n, Deliver))
  {
    hide ApplyAll, View, Apply, Exec;
    var p, rest := n.inFlight[0], n.inFlight[1..];
    assert n.inFlight == [p] + rest;
    ApplyAllConcat(n.client, [p], rest);
    OnePacket(n.client, p);
  }

  lemma NextRefines(n: Net, step: NetStep)
    requires Refines(n) && Enabled(n, step)
    ensures Refines(Next(n, step))
  {
    hide Refines, Next;
    match step
    case Serve(s) => ServeRefines(n, s);
    case Deliver => DeliverRefines(n);
  }

  // A run of the network: each step is enabled in the state it is taken from.
  ghost predicate Run(states: seq<Net>, steps: seq<NetStep>) {
    && |states| == |steps| + 1
    && forall i :: 0 <= i < |steps| ==> Enabled(states[i], steps[i]) && states[i + 1] == Next(states[i], steps[i])
  }

  lemma {:induction false} AlwaysRefines(states: seq<Net>, steps: seq<NetStep>, k: nat)
    requires Run(states, steps) && k <= |steps| && Refines(states[0])
    ensures Refines(states[k])
  {
    hide Refines, Next, Enabled;
    if k > 0 {
      AlwaysRefines(states, steps, k - 1);
      NextRefines(states[k - 1], steps[k - 1]);
    }
  }

  lemma MirrorsButLacking(es: seq<Entity>, lacking: set<nat>)
    requires DistinctIds(es) && lacking <= View(es).Keys
    ensures Mirrors(View(es) - lacking, es) <==> lacking == {}
  {
    hide View, DistinctIds;
    ViewMirrors(es);
    if lacking != {} {
      var id :| id in lacking;
      var e :| e in es && e.id == id;
      assert e.id !in View(es) - lacking;
    } else {
      assert View(es) - lacking == View(es);
    }
  }

  /** With no loss, whatever is synced: in every state of every run that starts in agreement, however
      sections, shots and deliveries interleave, the packets in flight lead the client to the picture of
      the server's entities without exactly those that syncs have left out and that have neither been
      destroyed nor named by a later sync; so that picture is true if and only if there are none. */
  lemma PictureButLacking(states: seq<Net>, steps: seq<NetStep>, k: nat)
    requires Run(states, steps) && k <= |steps|
    requires states[0].inFlight == [] && states[0].lacking == {} && Mirrors(states[0].client, Listed(states[0]))
    ensures ApplyAll(states[k].client, states[k].inFlight) == View(Listed(states[k])) - states[k].lacking
    ensures Mirrors(ApplyAll(states[k].client, states[k].inFlight), Listed(states[k])) <==> states[k].lacking == {}
  {
    hide Exec, View, Mirrors, DistinctIds;
    ReachableDistinct(states[0].history);
    ViewMirrors(Listed(states[0]));
    MirrorsUnique(states[0].client, View(Listed(states[0])), Listed(states[0]));
    NothingArrives(states[0].client);
    assert View(Listed(states[0])) - {} == View(Listed(states[0]));
    AlwaysRefines(states, steps, k);
    ReachableDistinct(states[k].history);
    MirrorsButLacking(Listed(states[k]), states[k].lacking);
  }

  // No sync sent before the k-th step loses anything.
  ghost predicate HarmlessUntil(states: seq<Net>, steps: seq<NetStep>, k: nat)
    requires Run(states, steps) && k <= |steps|
  {
    forall i :: 0 <= i < k && steps[i].Serve? ==> Harmless(Exec(START, states[i].history), steps[i].s)
  }

  lemma NothingLeftOut(w: World, s: Section)
    requires Harmless(w, s)
    ensures Lacks(w, s, {}) == {}
  {
    hide View, Act;
  }

  lemma {:induction false} NothingLacking(states: seq<Net>, steps: seq<NetStep>, k: nat)
    requires Run(states, steps) && k <= |steps| && HarmlessUntil(states, steps, k) && states[0].lacking == {}
    ensures states[k].lacking == {}
  {
    hide Lacks, Harmless, Exec, Emitted, Apply;
    if k > 0 {
      NothingLacking(states, steps, k - 1);
      if steps[k - 1].Serve? { NothingLeftOut(Exec(START, states[k - 1].history), steps[k - 1].s); }
    }
  }

  /** With no loss, and if no sync has more than 72 entities or those past the 72nd have local ids, the
      client's picture after the packets in flight is the server's entity list: in every state of every
      run that starts in agreement. */
  lemma ReplicationRefines(states: seq<Net>, steps: seq<NetStep>, k: nat)
    requires Run(states, steps) && k <= |steps| && HarmlessUntil(states, steps, k)
    requires states[0].inFlight == [] && states[0].lacking == {} && Mirrors(states[0].client, Listed(states[0]))
    ensures Mirrors(ApplyAll(states[k].client, states[k].inFlight), Listed(states[k]))
    ensures states[k].inFlight == [] ==> Mirrors(states[k].client, Listed(states[k]))
  {
    hide Mirrors, HarmlessUntil, Next, Enabled;
    NothingLacking(states, steps, k);
    PictureButLacking(states, steps, k);
    NothingArrives(states[k].client);
  }

  // ---------- self-stabilisation ----------

  // What a client with any picture m holds when it receives the sync that is the k-th section of the
  // run, and after it everything the server emits.
  function Recovering(run: seq<Section>, k: nat, m: Entities<Point>): Entities<Point>
    requires 0 < k <= |run|
  {
    var before := run[..|run| - 1];
    ApplyAll(if k == |run| then m else Recovering(before, k, m), Emitted(Exec(START, before), run[|run| - 1]))
  }

  lemma SyncAgrees(m: Entities<Point>, es: seq<Entity>)
    requires DistinctIds(es) && TailIsLocal(es)
    ensures Below(Apply(m, GlobalStateSync(Entries(es)))) == Below(View(es))
  {
    hide Apply, View, Entries;
    var m' := Apply(m, GlobalStateSync(Entries(es)));
    SyncLooksUp(m, es);
    ViewMirrors(es);
    forall id: nat | id < FIRST_LOCAL_ID
      ensures (id in m' <==> id in View(es)) && (id in m' ==> m'[id] == View(es)[id])
    {
      if e :| e in es && e.id == id {
        var i :| 0 <= i < |es| && es[i] == e;
      } else {
        assert forall i :: 0 <= i < |es| ==> es[i] in es;
      }
    }
    BelowFromLookup(m', View(es));
  }

  /** Whatever picture the client has, one sync brings it into agreement with the server on every id below
      9999 if and only if it leaves none of those out. */
  lemma SyncHealsIff(m: Entities<Point>, es: seq<Entity>)
    requires DistinctIds(es)
    ensures Below(Apply(m, GlobalStateSync(Entries(es)))) == Below(View(es)) <==> TailIsLocal(es)
  {
    hide Apply, View, Entries;
    if TailIsLocal(es) {
      SyncAgrees(m, es);
    } else {
      SyncLooksUp(m, es);
      ViewMirrors(es);
      var j :| SYNC_CAPACITY <= j < |es| && es[j].id < FIRST_LOCAL_ID;
      assert es[j] in es;
      assert es[j].id in Below(View(es));
      assert forall i :: 0 <= i < |es| && i < SYNC_CAPACITY ==> es[i].id != es[j].id;
      assert es[j].id !in Apply(m, GlobalStateSync(Entries(es)));
    }
  }

  /** Whatever the client has lost, one delivered sync that leaves out no id below 9999 brings it back:
      from then on, without loss and with such syncs, it agrees with the server on every id below 9999. */
  lemma {:induction false} SelfStabilises(run: seq<Section>, k: nat, m: Entities<Point>)
    requires 0 < k <= |run| && run[k - 1].Sync?
    requires forall i :: k - 1 <= i < |run| ==> Harmless(Exec(START, run[..i]), run[i])
    ensures Below(Recovering(run, k, m)) == Below(View(Exec(START, run).entities))
  {
    hide Act, Emitted, Harmless, ApplyAll, View, Below, DistinctIds, Apply;
    var before, s := run[..|run| - 1], run[|run| - 1];
    var w := Exec(START, before);
    ReachableDistinct(before);
    ReachableDistinct(run);
    assert Harmless(w, s);
    if k == |run| {
      SyncRecovers(w, m);
    } else {
      assert forall i :: 0 <= i < |before| ==> run[..i] == before[..i];
      SelfStabilises(before, k, m);
      BelowApplyAll(Recovering(before, k, m), View(w.entities), Emitted(w, s));
      SectionViews(w, s);
    }
  }

  lemma SyncRecovers(w: World, m: Entities<Point>)
    requires DistinctIds(w.entities) && Harmless(w, Sync)
    ensures Below(ApplyAll(m, Emitted(w, Sync))) == Below(View(Act(w, Sync).entities))
  {
    hide ApplyAll, View, Below, DistinctIds, Apply, TailIsLocal;
    OnePacket(m, GlobalStateSync(Entries(w.entities)));
    SyncAgrees(m, w.entities);
  }

  // ---------- a sync that loses something ----------

  const NO_SINE: real -> real := (t: real) => 0.0

  // An update up to its sync, and then n shots from the network thread.
  function Barrage(n: nat): (run: seq<Section>)
    ensures |run| == 6 + n
  {
    [Move, Collide([]), Level(NO_SINE), SpawnBoss, BossFire, Skip] + Shots(n)
  }

  function Shots(n: nat): (run: seq<Section>)
    ensures |run| == n
  {
    if n == 0 then [] else Shots(n - 1) + [Shoot(Point(400, 225.0), false)]
  }

  lemma QuietUpdate()
    ensures Legal(Barrage(0)) && PhaseOf(Barrage(0)) == AtSync
    ensures Exec(START, Barrage(0)).entities == [] && Exec(START, Barrage(0)).nextId == 1
  {
    hide Exec, Legal, PhaseOf, Act;
    var r2, r4 := [] + [Move] + [Collide([])], [] + [Move] + [Collide([])] + [Level(NO_SINE)] + [SpawnBoss];
    assert Barrage(0) == r4 + [BossFire] + [Skip];
    LegalNext([], Move);
    LegalNext([] + [Move], Collide([]));
    LegalNext(r2, Level(NO_SINE));
    LegalNext(r2 + [Level(NO_SINE)], SpawnBoss);
    LegalNext(r4, BossFire);
    LegalNext(r4 + [BossFire], Skip);
    NothingRun();
    ExecNothing(START);
    ExecNext(START, [], Move);
    ExecNext(START, [] + [Move], Collide([]));
    ExecNext(START, r2, Level(NO_SINE));
    ExecNext(START, r2 + [Level(NO_SINE)], SpawnBoss);
    ExecNext(START, r4, BossFire);
    ExecNext(START, r4 + [BossFire], Skip);
    QuietSections();
  }

  lemma NothingRun()
    ensures Legal([]) && PhaseOf([]) == AtMove
  {
  }

  lemma QuietSections()
    ensures Act(START, Move) == START && Act(START, Collide([])) == START
    ensures var w := START.(time := 16);
      && Act(START, Level(NO_SINE)) == w && Act(w, SpawnBoss) == w && Act(w, BossFire) == w && Act(w, Skip) == w
  {
  }

  lemma BarrageNext(n: nat)
    ensures Barrage(n + 1) == Barrage(n) + [Shoot(Point(400, 225.0), false)]
  {
  }

  // The shots of a barrage are listed under the ids 1, 2, 3, ...
  lemma {:induction false} BarrageListed(n: nat)
    ensures Legal(Barrage(n)) && PhaseOf(Barrage(n)) == AtSync
    ensures var w := Exec(START, Barrage(n));
      && |w.entities| == n && w.nextId == n + 1
      && forall i :: 0 <= i < n ==> w.entities[i].id == i + 1
  {
    hide Exec, Legal, PhaseOf, Barrage;
    if n == 0 {
      QuietUpdate();
    } else {
      BarrageListed(n - 1);
      BarrageNext(n - 1);
      var before, shot := Barrage(n - 1), Shoot(Point(400, 225.0), false);
      LegalNext(before, shot);
      ExecNext(START, before, shot);
    }
  }

  /** 73 shots in one update, and its sync makes a true picture false: with the game in that state, which
      the run reaches and in which the sync is the next section, the picture lacks the last of them. */
  lemma OverfullSyncForgets()
    ensures Legal(Barrage(73) + [Sync])
    ensures var es := Exec(START, Barrage(73)).entities;
      && |es| == 73 && Mirrors(View(es), es)
      && !Mirrors(Apply(View(es), GlobalStateSync(Entries(es))), es)
  {
    hide Exec, View, Mirrors, Apply, Entries, Legal, PhaseOf, Barrage;
    var run := Barrage(73);
    BarrageListed(73);
    LegalNext(run, Sync);
    ReachableDistinct(run);
    var es := Exec(START, run).entities;
    ViewMirrors(es);
    SyncExact(View(es), es);
    assert es[72].id == 73;
  }
}
