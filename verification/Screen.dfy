/** What a client shows besides its own player: the other players, the entities, the score, the health of the
    boss and whether the game goes on. How each packet changes it, and what any sequence of packets leads to. */
module Screen {
  import opened Protocol
  import opened Mirror

  datatype Position = Position(x: int, y: real, vy: real)
  datatype InGameStatus = PLAYING | KICKED | GAME_OVER

  datatype Shown = Shown(
    others: map<nat, Position>, entities: Entities<Point>, score: int, bossHP: int, bossMaxHP: int,
    status: InGameStatus)

  const BLANK := Shown(map[], map[], 0, 0, 1000, PLAYING)

  function Placed(others: map<nat, Position>, id: nat, at: Point): map<nat, Position> {
    others[id := Position(at.x, at.y, if id in others then at.y - others[id].y else 0.0)]
  }

  function Reward(entities: Entities<Point>, id: nat): int {
    if id !in entities then 0
    else if entities[id].kind == 2 then 50
    else if entities[id].kind == 3 then 100
    else 0
  }

  // A packet comes in at the client of player `me`.
  function After(s: Shown, me: nat, p: Packet): Shown {
    var t := s.(entities := Apply(s.entities, p));
    match p
    case PlayerState(id, _, _, at) => if id == me then t else t.(others := Placed(s.others, id, at))
    case EntityDestroy(id) => t.(score := s.score + Reward(s.entities, id))
    case PlayerDisconnect(id) =>
      t.(others := s.others - {id}, status := if id == me then GAME_OVER else s.status)
    case YouHaveBeenKicked => t.(status := KICKED)
    case BossState(hp, maxHp) => t.(bossHP := hp, bossMaxHP := maxHp)
    case _ => t
  }

  function AfterAll(s: Shown, me: nat, ps: seq<Packet>): Shown {
    if |ps| == 0 then s else After(AfterAll(s, me, ps[..|ps| - 1]), me, ps[|ps| - 1])
  }

  lemma AfterNext(s: Shown, me: nat, ps: seq<Packet>, n: nat)
    requires n < |ps|
    ensures AfterAll(s, me, ps[..n + 1]) == After(AfterAll(s, me, ps[..n]), me, ps[n])
  {
    hide After;
    assert ps[..n + 1][..n] == ps[..n];
  }

  lemma {:induction false} EntitiesAfter(s: Shown, me: nat, ps: seq<Packet>)
    ensures AfterAll(s, me, ps).entities == ApplyAll(s.entities, ps)
  {
    hide Apply;
    if |ps| > 0 { EntitiesAfter(s, me, ps[..|ps| - 1]); }
  }

  // ---------- the other players ----------

  predicate StateOf(p: Packet, id: nat) {
    p.PlayerState? && p.playerId == id
  }

  predicate EndOf(p: Packet, id: nat) {
    p.PlayerDisconnect? && p.leaver == id
  }

  // Nothing about this player in the packets from i to n.
  ghost predicate Quiet(ps: seq<Packet>, id: nat, i: nat, n: nat)
    requires n <= |ps|
  {
    forall j :: i <= j < n ==> !StateOf(ps[j], id) && !EndOf(ps[j], id)
  }

  // A state of this player has come, and no end of it since.
  ghost predicate Present(ps: seq<Packet>, id: nat, n: nat)
    requires n <= |ps|
  {
    exists i :: 0 <= i < n && StateOf(ps[i], id) && forall j :: i < j < n ==> !EndOf(ps[j], id)
  }

  lemma PresentNext(ps: seq<Packet>, id: nat, n: nat)
    requires n < |ps|
    ensures Present(ps, id, n + 1) <==> StateOf(ps[n], id) || (Present(ps, id, n) && !EndOf(ps[n], id))
  {
    if StateOf(ps[n], id) {
      assert Present(ps, id, n + 1);
    } else if Present(ps, id, n) && !EndOf(ps[n], id) {
      var i :| 0 <= i < n && StateOf(ps[i], id) && forall j :: i < j < n ==> !EndOf(ps[j], id);
      assert Present(ps, id, n + 1);
    }
  }

  lemma OtherAfter(s: Shown, me: nat, p: Packet, id: nat)
    requires id != me
    ensures id in After(s, me, p).others <==> StateOf(p, id) || (id in s.others && !EndOf(p, id))
    ensures StateOf(p, id) ==>
              After(s, me, p).others[id]
              == Position(p.pos.x, p.pos.y, if id in s.others then p.pos.y - s.others[id].y else 0.0)
    ensures !StateOf(p, id) && !EndOf(p, id) && id in s.others ==> After(s, me, p).others[id] == s.others[id]
  {
  }

  lemma {:induction false} ShownIff(me: nat, ps: seq<Packet>, id: nat, n: nat)
    requires id != me && n <= |ps|
    ensures id in AfterAll(BLANK, me, ps[..n]).others <==> Present(ps, id, n)
  {
    hide After, Present;
    if n > 0 {
      ShownIff(me, ps, id, n - 1);
      AfterNext(BLANK, me, ps, n - 1);
      OtherAfter(AfterAll(BLANK, me, ps[..n - 1]), me, ps[n - 1], id);
      PresentNext(ps, id, n - 1);
    } else {
      NobodyPresent(ps, id);
    }
  }

  lemma NobodyPresent(ps: seq<Packet>, id: nat)
    ensures !Present(ps, id, 0)
  {
  }

  // What is shown of a player right after its state i.
  lemma ShownAt(me: nat, ps: seq<Packet>, id: nat, i: nat)
    requires id != me && i < |ps| && StateOf(ps[i], id)
    ensures id in AfterAll(BLANK, me, ps[..i + 1]).others
    ensures var p := AfterAll(BLANK, me, ps[..i + 1]).others[id];
      && p.x == ps[i].pos.x && p.y == ps[i].pos.y
      && (!Present(ps, id, i) ==> p.vy == 0.0)
      && (id in AfterAll(BLANK, me, ps[..i]).others ==>
            p.vy == p.y - AfterAll(BLANK, me, ps[..i]).others[id].y)
  {
    hide After, Present;
    AfterNext(BLANK, me, ps, i);
    OtherAfter(AfterAll(BLANK, me, ps[..i]), me, ps[i], id);
    ShownIff(me, ps, id, i);
  }

  lemma {:induction false} ShownStill(me: nat, ps: seq<Packet>, id: nat, i: nat, n: nat)
    requires id != me && i <= n <= |ps| && Quiet(ps, id, i, n)
    requires id in AfterAll(BLANK, me, ps[..i]).others
    ensures id in AfterAll(BLANK, me, ps[..n]).others
    ensures AfterAll(BLANK, me, ps[..n]).others[id] == AfterAll(BLANK, me, ps[..i]).others[id]
    decreases n - i
  {
    hide After;
    if i < n {
      ShownStill(me, ps, id, i, n - 1);
      AfterNext(BLANK, me, ps, n - 1);
      OtherAfter(AfterAll(BLANK, me, ps[..n - 1]), me, ps[n - 1], id);
    }
  }

  /** After any packets, another player is shown if and only if a state of it has come and no disconnect of
      it since. */
  lemma OthersShown(me: nat, ps: seq<Packet>, id: nat)
    requires id != me
    ensures id in AfterAll(BLANK, me, ps).others <==> Present(ps, id, |ps|)
  {
    assert ps[..|ps|] == ps;
    ShownIff(me, ps, id, |ps|);
  }

  /** It is shown where its last state has it, and its vertical speed is how far that is from where the state
      before had it, if there was one since it last left, and 0 otherwise. */
  lemma OthersPlaced(me: nat, ps: seq<Packet>, id: nat, i: nat)
    requires id != me && i < |ps| && StateOf(ps[i], id) && Quiet(ps, id, i + 1, |ps|)
    ensures id in AfterAll(BLANK, me, ps).others
    ensures var p := AfterAll(BLANK, me, ps).others[id];
      && p.x == ps[i].pos.x && p.y == ps[i].pos.y
      && (!Present(ps, id, i) ==> p.vy == 0.0)
      && (forall k :: 0 <= k < i && StateOf(ps[k], id) && Quiet(ps, id, k + 1, i) ==>
            p.vy == ps[i].pos.y - ps[k].pos.y)
  {
    hide After, Present, Quiet, AfterAll;
    assert ps[..|ps|] == ps;
    ShownAt(me, ps, id, i);
    ShownStill(me, ps, id, i + 1, |ps|);
    forall k | 0 <= k < i && StateOf(ps[k], id) && Quiet(ps, id, k + 1, i)
      ensures AfterAll(BLANK, me, ps).others[id].vy == ps[i].pos.y - ps[k].pos.y
    {
      ShownAt(me, ps, id, k);
      ShownStill(me, ps, id, k + 1, i);
    }
  }

  // ---------- score ----------

  // Packet i destroys an entity that the picture then shows as one of this kind.
  predicate Destroys(m: Entities<Point>, ps: seq<Packet>, i: nat, kind: nat)
    requires i < |ps|
  {
    var picture := ApplyAll(m, ps[..i]);
    ps[i].EntityDestroy? && ps[i].id in picture && picture[ps[i].id].kind == kind
  }

  ghost function Destroyed(m: Entities<Point>, ps: seq<Packet>, kind: nat): set<nat> {
    set i: nat | i < |ps| && Destroys(m, ps, i, kind)
  }

  lemma DestroyedNext(m: Entities<Point>, ps: seq<Packet>, kind: nat)
    requires |ps| > 0
    ensures var n := |ps| - 1;
      |Destroyed(m, ps, kind)| == |Destroyed(m, ps[..n], kind)| + if Destroys(m, ps, n, kind) then 1 else 0
  {
    hide Destroys;
    var n: nat := |ps| - 1;
    var before := Destroyed(m, ps[..n], kind);
    forall i: nat | i < n ensures Destroys(m, ps[..n], i, kind) == Destroys(m, ps, i, kind) {
      DestroysBefore(m, ps, n, i, kind);
    }
    if Destroys(m, ps, n, kind) {
      assert Destroyed(m, ps, kind) == before + {n};
    } else {
      assert Destroyed(m, ps, kind) == before;
    }
  }

  lemma DestroysBefore(m: Entities<Point>, ps: seq<Packet>, n: nat, i: nat, kind: nat)
    requires i < n <= |ps|
    ensures Destroys(m, ps[..n], i, kind) == Destroys(m, ps, i, kind)
  {
    hide ApplyAll;
    assert ps[..n][..i] == ps[..i] && ps[..n][i] == ps[i];
  }

  lemma ScoreAfter(s: Shown, me: nat, p: Packet)
    ensures After(s, me, p).score == s.score + if p.EntityDestroy? then Reward(s.entities, p.id) else 0
  {
  }

  /** After any packets, the score has risen by 50 for every slow enemy in the picture that was destroyed and
      by 100 for every fast one, and by nothing else. */
  lemma {:induction false} ScoreCounts(s: Shown, me: nat, ps: seq<Packet>)
    ensures AfterAll(s, me, ps).score
         == s.score + 50 * |Destroyed(s.entities, ps, 2)| + 100 * |Destroyed(s.entities, ps, 3)|
  {
    hide After, Apply, Destroyed;
    if |ps| > 0 {
      var init, last := ps[..|ps| - 1], ps[|ps| - 1];
      ScoreCounts(s, me, init);
      EntitiesAfter(s, me, init);
      ScoreAfter(AfterAll(s, me, init), me, last);
      DestroyedNext(s.entities, ps, 2);
      DestroyedNext(s.entities, ps, 3);
    } else {
      NothingDestroyed(s.entities, ps, 2);
      NothingDestroyed(s.entities, ps, 3);
    }
  }

  lemma NothingDestroyed(m: Entities<Point>, ps: seq<Packet>, kind: nat)
    requires |ps| == 0
    ensures Destroyed(m, ps, kind) == {}
  {
  }

  // ---------- boss and end ----------

  /** After any packets, the health shown of the boss is what the last packet about it said, and what it was
      if none came. */
  lemma {:induction false} BossShown(s: Shown, me: nat, ps: seq<Packet>, i: nat)
    requires i <= |ps| && forall j :: i <= j < |ps| ==> !ps[j].BossState?
    ensures i == 0 ==> AfterAll(s, me, ps).bossHP == s.bossHP && AfterAll(s, me, ps).bossMaxHP == s.bossMaxHP
    ensures i > 0 && ps[i - 1].BossState? ==>
              AfterAll(s, me, ps).bossHP == ps[i - 1].hp && AfterAll(s, me, ps).bossMaxHP == ps[i - 1].maxHp
  {
    if i < |ps| { BossShown(s, me, ps[..|ps| - 1], i); }
  }

  predicate Ends(p: Packet, me: nat) {
    p.YouHaveBeenKicked? || EndOf(p, me)
  }

  /** After any packets, the game goes on as before if neither a kick nor a disconnect of the own player has
      come; otherwise the last of these says how it ended. */
  lemma {:induction false} StatusShown(s: Shown, me: nat, ps: seq<Packet>, i: nat)
    requires i <= |ps| && forall j :: i <= j < |ps| ==> !Ends(ps[j], me)
    ensures i == 0 ==> AfterAll(s, me, ps).status == s.status
    ensures i > 0 && EndOf(ps[i - 1], me) ==> AfterAll(s, me, ps).status == GAME_OVER
    ensures i > 0 && ps[i - 1].YouHaveBeenKicked? ==> AfterAll(s, me, ps).status == KICKED
  {
    if i < |ps| { StatusShown(s, me, ps[..|ps| - 1], i); }
  }
}
