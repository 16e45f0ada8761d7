/** Who gets which packets: fan-out of the server's packets to the players with a known address. */
module Wire {
  import opened Protocol
  import opened World
  import opened Players

  function Addresses(players: seq<Player>): seq<nat> {
    if |players| == 0 then []
    else
      var rest, last := Addresses(players[..|players| - 1]), players[|players| - 1];
      if last.addrSet then rest + [last.addr] else rest
  }

  function Positions(players: seq<Player>): seq<Point> {
    seq(|players|, i requires 0 <= i < |players| => players[i].Pos())
  }

  // One packet to every address.
  function Fanout(p: Packet, addrs: seq<nat>): seq<Datagram> {
    seq(|addrs|, i requires 0 <= i < |addrs| => Datagram(addrs[i], p))
  }

  // Packet after packet, each to every address.
  function FanoutAll(ps: seq<Packet>, addrs: seq<nat>): seq<Datagram> {
    if |ps| == 0 then [] else FanoutAll(ps[..|ps| - 1], addrs) + Fanout(ps[|ps| - 1], addrs)
  }

  // All packets to one address.
  function Direct(ps: seq<Packet>, addr: nat): seq<Datagram> {
    seq(|ps|, i requires 0 <= i < |ps| => Datagram(addr, ps[i]))
  }

  // Address after address, each with all the packets.
  function Burst(ps: seq<Packet>, addrs: seq<nat>): seq<Datagram> {
    if |addrs| == 0 then [] else Burst(ps, addrs[..|addrs| - 1]) + Direct(ps, addrs[|addrs| - 1])
  }

  // What a section queues: the boss's arrival goes out player by player, all else packet by packet.
  function SectionLog(w: World, s: Section, addrs: seq<nat>): seq<Datagram> {
    if s.SpawnBoss? then Burst(Emitted(w, s), addrs) else FanoutAll(Emitted(w, s), addrs)
  }

  // What a run queues when those of the i-th section go to the addresses books[i].
  function HistoryLog(w: World, run: seq<Section>, books: seq<seq<nat>>): seq<Datagram>
    requires |books| == |run|
  {
    if |run| == 0 then []
    else
      var n := |run| - 1;
      HistoryLog(w, run[..n], books[..n]) + SectionLog(Exec(w, run[..n]), run[n], books[n])
  }

  function Always(addrs: seq<nat>, n: nat): seq<seq<nat>> {
    seq(n, _ => addrs)
  }

  // The same when the addresses do not change.
  function RunLog(w: World, run: seq<Section>, addrs: seq<nat>): seq<Datagram> {
    HistoryLog(w, run, Always(addrs, |run|))
  }

  // One state packet for each player with a known address.
  function StatePacket(p: Player): Packet {
    PlayerState(p.id, p.stateSequence, p.lastProcessedTick, p.Pos())
  }

  function StatePackets(players: seq<Player>): seq<Packet> {
    if |players| == 0 then []
    else
      var rest, last := StatePackets(players[..|players| - 1]), players[|players| - 1];
      if last.addrSet then rest + [StatePacket(last)] else rest
  }

  // How many of the players before index i have a known address.
  function Rank(players: seq<Player>, i: nat): (r: nat)
    requires i <= |players|
  {
    |Addresses(players[..i])|
  }

  /** Each player with a known address has its place in the address book, in order of joining, and one state
      packet at that place, which carries its id, the number of this packet, the last tick handled and where
      the player is. */
  lemma {:induction false} StateTells(players: seq<Player>, i: nat)
    requires i < |players| && players[i].addrSet
    ensures |StatePackets(players)| == |Addresses(players)| && Rank(players, i) < |Addresses(players)|
    ensures Addresses(players)[Rank(players, i)] == players[i].addr
    ensures var p := StatePackets(players)[Rank(players, i)];
      && p.PlayerState? && p.playerId == players[i].id && p.sequence == players[i].stateSequence
      && p.lastProcessedTick == players[i].lastProcessedTick
      && p.pos.x == players[i].x && p.pos.y == players[i].y
  {
    var n := |players| - 1;
    var init := players[..n];
    AsManyStates(players);
    AsManyStates(init);
    if i < n {
      assert init[..i] == players[..i];
      StateTells(init, i);
    }
  }

  lemma {:induction false} AsManyStates(players: seq<Player>)
    ensures |StatePackets(players)| == |Addresses(players)|
  {
    if |players| > 0 { AsManyStates(players[..|players| - 1]); }
  }

  /** There are no other addresses in the book and no other state packets. */
  lemma {:induction false} StateOfWhom(players: seq<Player>, r: nat) returns (i: nat)
    requires r < |Addresses(players)|
    ensures i < |players| && players[i].addrSet && Rank(players, i) == r
  {
    var n := |players| - 1;
    if r < |Addresses(players[..n])| {
      i := StateOfWhom(players[..n], r);
      assert players[..n][..i] == players[..i];
    } else {
      i := n;
    }
  }

  // The players after a broadcast: their next state packets have the next numbers.
  function Numbered(p: Player): Player {
    if p.addrSet then p.(stateSequence := p.stateSequence + 1) else p
  }

  function AllNumbered(players: seq<Player>): seq<Player> {
    seq(|players|, i requires 0 <= i < |players| => Numbered(players[i]))
  }

  // ---------- what one player receives ----------

  function Inbox(log: seq<Datagram>, addr: nat): seq<Packet> {
    if |log| == 0 then []
    else
      var before, d := Inbox(log[..|log| - 1], addr), log[|log| - 1];
      if d.addr == addr then before + [d.packet] else before
  }

  lemma {:induction false} InboxConcat(a: seq<Datagram>, b: seq<Datagram>, addr: nat)
    ensures Inbox(a + b, addr) == Inbox(a, addr) + Inbox(b, addr)
  {
    if |b| == 0 {
      assert a + b == a;
    } else {
      InboxConcat(a, b[..|b| - 1], addr);
      assert (a + b)[..|a + b| - 1] == a + b[..|b| - 1];
    }
  }

  lemma {:induction false} InboxNone(log: seq<Datagram>, addr: nat)
    requires forall d :: d in log ==> d.addr != addr
    ensures Inbox(log, addr) == []
  {
    if |log| > 0 {
      assert log[|log| - 1] in log;
      InboxNone(log[..|log| - 1], addr);
    }
  }

  // The address occurs once, at index k.
  ghost predicate Once(addrs: seq<nat>, addr: nat, k: nat) {
    k < |addrs| && forall i :: 0 <= i < |addrs| ==> (addrs[i] == addr <==> i == k)
  }

  lemma InboxFanout(p: Packet, addrs: seq<nat>, addr: nat, k: nat)
    requires Once(addrs, addr, k)
    ensures Inbox(Fanout(p, addrs), addr) == [p]
  {
    var a, b, c := Fanout(p, addrs[..k]), [Datagram(addr, p)], Fanout(p, addrs[k + 1..]);
    assert Fanout(p, addrs) == a + b + c;
    InboxConcat(a + b, c, addr);
    InboxConcat(a, b, addr);
    InboxNone(a, addr);
    InboxNone(c, addr);
    assert b[..0] == [];
  }

  lemma {:induction false} InboxFanoutAll(ps: seq<Packet>, addrs: seq<nat>, addr: nat, k: nat)
    requires Once(addrs, addr, k)
    ensures Inbox(FanoutAll(ps, addrs), addr) == ps
  {
    if |ps| > 0 {
      InboxFanoutAll(ps[..|ps| - 1], addrs, addr, k);
      InboxFanout(ps[|ps| - 1], addrs, addr, k);
      InboxConcat(FanoutAll(ps[..|ps| - 1], addrs), Fanout(ps[|ps| - 1], addrs), addr);
    }
  }

  lemma {:induction false} InboxDirect(ps: seq<Packet>, addr: nat)
    ensures Inbox(Direct(ps, addr), addr) == ps
  {
    if |ps| > 0 {
      InboxDirect(ps[..|ps| - 1], addr);
      assert Direct(ps, addr)[..|ps| - 1] == Direct(ps[..|ps| - 1], addr);
    }
  }

  lemma {:induction false} InboxBurst(ps: seq<Packet>, addrs: seq<nat>, addr: nat)
    requires forall i, j :: 0 <= i < j < |addrs| ==> addrs[i] == addr ==> addrs[j] != addr
    ensures Inbox(Burst(ps, addrs), addr) == if addr in addrs then ps else []
  {
    if |addrs| > 0 {
      var init, last := addrs[..|addrs| - 1], addrs[|addrs| - 1];
      InboxBurst(ps, init, addr);
      InboxConcat(Burst(ps, init), Direct(ps, last), addr);
      assert addr in addrs <==> addr in init || addr == last;
      if last == addr {
        InboxDirect(ps, addr);
      } else {
        InboxNone(Direct(ps, last), addr);
      }
    }
  }

  lemma InboxOfSection(w: World, s: Section, addrs: seq<nat>, addr: nat, k: nat)
    requires Once(addrs, addr, k)
    ensures Inbox(SectionLog(w, s, addrs), addr) == Emitted(w, s)
  {
    hide Emitted, FanoutAll, Burst, Inbox;
    if s.SpawnBoss? {
      InboxBurst(Emitted(w, s), addrs, addr);
      assert addrs[k] in addrs;
    } else {
      InboxFanoutAll(Emitted(w, s), addrs, addr, k);
    }
  }

  ghost predicate Listed(addrs: seq<nat>, addr: nat) {
    exists k :: Once(addrs, addr, k)
  }

  /** A player whose address is known, and is nobody else's, is sent exactly the packets of the sections,
      in the order of the sections, whoever else comes and goes: the channel of the replication
      theorems. */
  lemma {:induction false} InboxOfHistory(w: World, run: seq<Section>, books: seq<seq<nat>>, addr: nat)
    requires |books| == |run| && forall addrs :: addrs in books ==> Listed(addrs, addr)
    ensures Inbox(HistoryLog(w, run, books), addr) == Emission(w, run)
  {
    hide SectionLog, Emitted, Act, Inbox, Listed;
    if |run| > 0 {
      var n := |run| - 1;
      assert forall addrs :: addrs in books[..n] ==> addrs in books;
      InboxOfHistory(w, run[..n], books[..n], addr);
      InboxConcat(HistoryLog(w, run[..n], books[..n]), SectionLog(Exec(w, run[..n]), run[n], books[n]), addr);
      var k := Place(books[n], addr);
      InboxOfSection(Exec(w, run[..n]), run[n], books[n], addr, k);
    } else {
      InboxNothing(addr);
    }
  }

  lemma InboxNothing(addr: nat)
    ensures Inbox([], addr) == []
  {
  }

  lemma Place(addrs: seq<nat>, addr: nat) returns (k: nat)
    requires Listed(addrs, addr)
    ensures Once(addrs, addr, k)
  {
    k :| Once(addrs, addr, k);
  }

  lemma InboxOfRun(w: World, run: seq<Section>, addrs: seq<nat>, addr: nat)
    requires Listed(addrs, addr)
    ensures Inbox(RunLog(w, run, addrs), addr) == Emission(w, run)
  {
    InboxOfHistory(w, run, Always(addrs, |run|), addr);
  }

  lemma HistoryNext(w: World, run: seq<Section>, books: seq<seq<nat>>, s: Section, addrs: seq<nat>)
    requires |books| == |run|
    ensures HistoryLog(w, run + [s], books + [addrs])
         == HistoryLog(w, run, books) + SectionLog(Exec(w, run), s, addrs)
  {
    hide SectionLog, Exec;
    assert (run + [s])[..|run|] == run && (books + [addrs])[..|run|] == books;
  }

  lemma RunNext(w: World, run: seq<Section>, s: Section, addrs: seq<nat>)
    ensures Exec(w, run + [s]) == Act(Exec(w, run), s)
    ensures RunLog(w, run + [s], addrs) == RunLog(w, run, addrs) + SectionLog(Exec(w, run), s, addrs)
  {
    hide Act, SectionLog, HistoryLog;
    ExecNext(w, run, s);
    HistoryNext(w, run, Always(addrs, |run|), s, addrs);
    assert Always(addrs, |run| + 1) == Always(addrs, |run|) + [addrs];
  }

  lemma {:induction false} RunConcat(w: World, a: seq<Section>, b: seq<Section>, addrs: seq<nat>)
    ensures Exec(w, a + b) == Exec(Exec(w, a), b)
    ensures RunLog(w, a + b, addrs) == RunLog(w, a, addrs) + RunLog(Exec(w, a), b, addrs)
  {
    hide Act, SectionLog, Exec, RunLog;
    ExecConcat(w, a, b);
    if |b| == 0 {
      assert a + b == a;
      NothingLogged(Exec(w, a), addrs);
    } else {
      var init, last := b[..|b| - 1], b[|b| - 1];
      RunConcat(w, a, init, addrs);
      assert b == init + [last] && a + b == (a + init) + [last];
      RunNext(w, a + init, last, addrs);
      RunNext(Exec(w, a), init, last, addrs);
    }
  }

  lemma NothingLogged(w: World, addrs: seq<nat>)
    ensures RunLog(w, [], addrs) == []
  {
  }

  // ---------- the numbers of one player's states ----------

  // The sequence numbers of the state packets of one player.
  function SequencesOf(ps: seq<Packet>, id: nat): seq<nat> {
    if |ps| == 0 then []
    else
      var before, p := SequencesOf(ps[..|ps| - 1], id), ps[|ps| - 1];
      if p.PlayerState? && p.playerId == id then before + [p.sequence] else before
  }

  lemma {:induction false} SequencesConcat(a: seq<Packet>, b: seq<Packet>, id: nat)
    ensures SequencesOf(a + b, id) == SequencesOf(a, id) + SequencesOf(b, id)
  {
    if |b| == 0 {
      assert a + b == a;
    } else {
      SequencesConcat(a, b[..|b| - 1], id);
      assert (a + b)[..|a + b| - 1] == a + b[..|b| - 1];
    }
  }
}
