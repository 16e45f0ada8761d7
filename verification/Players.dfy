/** The server's record of a player, and what a sequence of input packets makes of it. */
module Players {
  import opened Protocol
  import Gaps
  import Prediction
  import PlayerSync

  datatype Player = Player(
    id: nat, x: int, y: real, lastProcessedTick: nat, addrSet: bool, addr: nat,
    inputs: Gaps.Counter, stateSequence: nat)
  {
    function Pos(): Point { Point(x, y) }
  }

  function NewPlayer(id: nat): Player {
    Player(id, 400, 225.0, 0, false, 0, Gaps.UNUSED, 0)
  }

  // Index of the first player with this id; |players| when there is none.
  function IndexOf(players: seq<Player>, id: nat): (i: nat)
    ensures i <= |players|
    ensures i < |players| ==> players[i].id == id
    ensures forall j :: 0 <= j < i ==> players[j].id != id
  {
    if |players| == 0 || players[0].id == id then 0 else 1 + IndexOf(players[1..], id)
  }

  // The player's own part of handling an input packet.
  function Advance(p: Player, pkt: InputPacket): Player {
    var at := Plus(p.Pos(), Shift(pkt.inputs));
    p.(x := at.x, y := at.y,
       inputs := Gaps.Note(p.inputs, pkt.tick),
       lastProcessedTick := if pkt.tick > p.lastProcessedTick then pkt.tick else p.lastProcessedTick)
  }

  function AfterInput(players: seq<Player>, pkt: InputPacket): seq<Player> {
    var i := IndexOf(players, pkt.playerId);
    if i < |players| then players[i := Advance(players[i], pkt)] else players
  }

  // The first datagram of a player makes its address known.
  function Addressed(players: seq<Player>, id: nat, addr: nat): seq<Player> {
    var i := IndexOf(players, id);
    if i < |players| && !players[i].addrSet then players[i := players[i].(addr := addr, addrSet := true)]
    else players
  }

  // The players but those with this id, in the order in which they joined.
  function Without(players: seq<Player>, id: nat): seq<Player> {
    if |players| == 0 then []
    else
      var last := players[|players| - 1];
      Without(players[..|players| - 1], id) + if last.id == id then [] else [last]
  }

  // ---------- runs of inputs ----------

  function AdvanceAll(p: Player, pkts: seq<InputPacket>): Player {
    if |pkts| == 0 then p else Advance(AdvanceAll(p, pkts[..|pkts| - 1]), pkts[|pkts| - 1])
  }

  function Ticks(pkts: seq<InputPacket>): seq<nat> {
    seq(|pkts|, i requires 0 <= i < |pkts| => pkts[i].tick)
  }

  lemma {:induction false} AdvanceCounts(p: Player, pkts: seq<InputPacket>)
    requires p.inputs == Gaps.UNUSED
    ensures AdvanceAll(p, pkts).inputs == Gaps.Tally(Ticks(pkts))
  {
    if |pkts| > 0 {
      AdvanceCounts(p, pkts[..|pkts| - 1]);
      assert Ticks(pkts)[..|pkts| - 1] == Ticks(pkts[..|pkts| - 1]);
    }
  }

  lemma {:induction false} AdvanceMoves(p: Player, pkts: seq<InputPacket>)
    ensures AdvanceAll(p, pkts).Pos() == Plus(p.Pos(), Displacement(pkts))
  {
    if |pkts| == 0 {
      assert Displacement(pkts) == Point(0, 0.0);
    } else {
      var init, last := pkts[..|pkts| - 1], pkts[|pkts| - 1];
      AdvanceMoves(p, init);
      assert pkts == init + [last];
      Prediction.PressMoves(p.Pos(), init, last);
    }
  }

  /** For any arrivals of a player's input packets, with duplicates and in any order: received and lost
      inputs add up to the span of ticks seen, and received ones are the strict running maxima. */
  lemma InputAccounting(id: nat, pkts: seq<InputPacket>)
    requires |pkts| > 0
    ensures var c := AdvanceAll(NewPlayer(id), pkts).inputs;
            && c.received + c.lost == c.last - pkts[0].tick + 1
            && Gaps.IsMax(c.last, Ticks(pkts))
            && c.received == |Gaps.Records(Ticks(pkts))|
            && (c.lost == |Gaps.Missing(Ticks(pkts))| <==> Gaps.Late(Ticks(pkts)) == {})
  {
    AdvanceCounts(NewPlayer(id), pkts);
    Gaps.Accounting(Ticks(pkts));
  }

  // ---------- the order of arrival does not matter for the position ----------

  lemma SumSwapsIn(ds: seq<Point>, i: nat)
    requires i < |ds|
    ensures Sum(ds) == Plus(Sum(ds[..i] + ds[i + 1..]), ds[i])
  {
    hide Sum;
    assert ds == ds[..i] + ([ds[i]] + ds[i + 1..]);
    SumConcat(ds[..i], [ds[i]] + ds[i + 1..]);
    SumConcat([ds[i]], ds[i + 1..]);
    SumConcat(ds[..i], ds[i + 1..]);
    SumOne(ds[i]);
    PlusSwaps(Sum(ds[..i]), ds[i], Sum(ds[i + 1..]));
  }

  lemma PlusSwaps(a: Point, b: Point, c: Point)
    ensures Plus(a, Plus(b, c)) == Plus(Plus(a, c), b)
  {
  }

  lemma {:induction false} SumOfPermutation(a: seq<Point>, b: seq<Point>)
    requires multiset(a) == multiset(b)
    ensures Sum(a) == Sum(b)
    decreases |a|
  {
    assert |multiset(a)| == |a| && |multiset(b)| == |b|;
    if |a| > 0 {
      var init, last := a[..|a| - 1], a[|a| - 1];
      assert a == init + [last];
      assert last in multiset(b);
      var i :| 0 <= i < |b| && b[i] == last;
      var rest := b[..i] + b[i + 1..];
      PermutationRest(init, last, b, i);
      SumOfPermutation(init, rest);
      SumSwapsIn(b, i);
    }
  }

  lemma PermutationRest<T>(init: seq<T>, last: T, b: seq<T>, i: nat)
    requires i < |b| && b[i] == last
    requires multiset(init + [last]) == multiset(b)
    ensures multiset(init) == multiset(b[..i] + b[i + 1..])
  {
    assert b == b[..i] + [last] + b[i + 1..];
    assert multiset(b) == multiset(b[..i] + b[i + 1..]) + multiset{last};
    assert multiset(init + [last]) - multiset{last} == multiset(init);
  }

  lemma {:induction false} ShiftsOfPermutation(a: seq<InputPacket>, b: seq<InputPacket>)
    requires multiset(a) == multiset(b)
    ensures multiset(Shifts(a)) == multiset(Shifts(b))
    decreases |a|
  {
    assert |multiset(a)| == |a| && |multiset(b)| == |b|;
    if |a| > 0 {
      var init, last := a[..|a| - 1], a[|a| - 1];
      assert a == init + [last];
      assert last in multiset(b);
      var i :| 0 <= i < |b| && b[i] == last;
      var rest := b[..i] + b[i + 1..];
      PermutationRest(init, last, b, i);
      ShiftsOfPermutation(init, rest);
      assert Shifts(a) == Shifts(init) + [Shift(last.inputs)];
      assert Shifts(b) == Shifts(b[..i]) + [Shift(last.inputs)] + Shifts(b[i + 1..]);
      assert Shifts(rest) == Shifts(b[..i]) + Shifts(b[i + 1..]);
    }
  }

  /** Two arrivals of the same packets in different order leave the player in the same place. */
  lemma OrderIrrelevant(p: Player, a: seq<InputPacket>, b: seq<InputPacket>)
    requires multiset(a) == multiset(b)
    ensures AdvanceAll(p, a).Pos() == AdvanceAll(p, b).Pos()
  {
    AdvanceMoves(p, a);
    AdvanceMoves(p, b);
    ShiftsOfPermutation(a, b);
    SumOfPermutation(Shifts(a), Shifts(b));
  }

  // ---------- the server of the prediction theorems ----------

  function Standing(p: Player): PlayerSync.Server {
    PlayerSync.Server(p.lastProcessedTick, p.Pos())
  }

  lemma AdvanceIsHandle(p: Player, pkt: InputPacket)
    ensures Standing(Advance(p, pkt)) == PlayerSync.Handle(Standing(p), pkt)
  {
  }

  lemma {:induction false} AdvanceIsHandleAll(p: Player, pkts: seq<InputPacket>)
    ensures Standing(AdvanceAll(p, pkts)) == PlayerSync.HandleAll(Standing(p), pkts)
  {
    if pkts != [] {
      AdvanceIsHandleAll(p, pkts[..|pkts| - 1]);
      AdvanceIsHandle(AdvanceAll(p, pkts[..|pkts| - 1]), pkts[|pkts| - 1]);
    }
  }

  // The empty packet that a client sends first, to make its address known.
  function Hello(me: nat): InputPacket {
    InputPacket(me, 0, NO_INPUTS)
  }

  lemma {:induction false} HelloChangesNothing(s: PlayerSync.Server, a: seq<InputPacket>, b: seq<InputPacket>, me: nat)
    ensures PlayerSync.HandleAll(s, a + [Hello(me)] + b) == PlayerSync.HandleAll(s, a + b)
  {
    hide PlayerSync.HandleAll;
    if b == [] {
      PlayerSync.HandleAllNext(s, a, Hello(me));
      PlayerSync.PlusNothing(PlayerSync.HandleAll(s, a).at);
      assert a + [Hello(me)] + b == a + [Hello(me)] && a + b == a;
    } else {
      var init, last := b[..|b| - 1], b[|b| - 1];
      HelloChangesNothing(s, a, init, me);
      PlayerSync.HandleAllNext(s, a + [Hello(me)] + init, last);
      PlayerSync.HandleAllNext(s, a + init, last);
      assert a + [Hello(me)] + b == (a + [Hello(me)] + init) + [last] && a + b == (a + init) + [last];
    }
  }

  /** A fresh player that handles the inputs that arrive, and the client's hello in front of, between or
      after them, stands where the server of the prediction theorems does between two inputs. */
  lemma HandlesAsPredicted(s: PlayerSync.System, a: seq<InputPacket>, b: seq<InputPacket>)
    requires PlayerSync.Coherent(s) && s.stage == 0 && s.start == Point(400, 225.0) && s.taken == a + b
    ensures Standing(AdvanceAll(NewPlayer(s.me), a + [Hello(s.me)] + b)) == s.server
    ensures Standing(AdvanceAll(NewPlayer(s.me), a + b)) == s.server
  {
    hide PlayerSync.Coherent, AdvanceAll, Hello, PlayerSync.HandleAll;
    AdvanceIsHandleAll(NewPlayer(s.me), a + [Hello(s.me)] + b);
    AdvanceIsHandleAll(NewPlayer(s.me), a + b);
    HelloChangesNothing(Standing(NewPlayer(s.me)), a, b, s.me);
    PlayerSync.HandlerCompletes(s);
  }
}
