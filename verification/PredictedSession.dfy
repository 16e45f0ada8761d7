/** A game and a predicting client, object to object, over a network that keeps every datagram and its order:
    what the client shows of its own player is always everything it has ever pressed. */
module PredictedSession {
  import opened Basics
  import opened Protocol
  import opened World
  import opened Players
  import opened Wire
  import Session
  import Screen
  import G = GameServer
  import C = Client
  import P = Prediction
  import S = PlayerSync
  import L = LossWindow

  const BEGINNING := Point(400, 225.0)

  /** The state packet of a player who has handled any inputs since it joined carries the highest of their
      ticks, 0 if there is none, and the place they lead to. */
  lemma StateOfTaken(players: seq<Player>, i: nat, taken: seq<InputPacket>)
    requires i < |players| && players[i].addrSet
    requires Standing(players[i]) == Standing(AdvanceAll(NewPlayer(players[i].id), taken))
    ensures Rank(players, i) < |StatePackets(players)|
    ensures var p := StatePackets(players)[Rank(players, i)];
      && p.PlayerState? && p.playerId == players[i].id
      && (forall t :: t in taken ==> t.tick <= p.lastProcessedTick)
      && (p.lastProcessedTick == 0 || exists t :: t in taken && t.tick == p.lastProcessedTick)
      && p.pos == Plus(BEGINNING, Displacement(taken))
  {
    hide Displacement, AdvanceAll;
    StateTells(players, i);
    AdvanceIsHandleAll(NewPlayer(players[i].id), taken);
    S.HandledAll(BEGINNING, taken);
    S.TopReached(taken);
  }

  // ---------- the two ends as one system ----------

  // In order and without loss, with whole snapshots.
  ghost predicate Exact(s: S.System) {
    && S.Coherent(s) && s.t0 >= 1 && s.start == BEGINNING && s.stage == 0 && s.reading.None?
    && s.taken <= S.AllIssued(s) && S.Top(s.last) == P.Greatest(s.events) && s.owed == S.NOWHERE
    && (forall m :: m in s.sent ==> m.owed == S.NOWHERE && m.ack <= S.Top(s.taken))
    && (forall i, j :: 0 <= i < j < |s.sent| ==> s.sent[i].ack <= s.sent[j].ack)
  }

  lemma InitExact(t0: nat, me: nat)
    requires t0 >= 1
    ensures Exact(S.Init(t0, me, BEGINNING))
    ensures S.AllIssued(S.Init(t0, me, BEGINNING)) == []
    ensures S.Client(S.Init(t0, me, BEGINNING)) == P.Live(t0, me, [])
  {
    S.InitCoherent(t0, me, BEGINNING);
  }

  lemma KeyExact(s: S.System, inputs: Inputs)
    requires Exact(s)
    ensures var s' := s.(events := s.events + [P.Press(inputs)]);
      && Exact(s')
      && S.Client(s') == P.Issue(S.Client(s), s.me, inputs)
      && S.AllIssued(s') == S.AllIssued(s) + [InputPacket(s.me, S.Client(s).tick, inputs)]
      && P.Greatest(s'.events) == P.Greatest(s.events)
  {
    hide S.Coherent, S.Top, P.Live, P.Issued, P.Greatest, P.Issue;
    S.DoCoherent(s, S.Key(inputs));
    S.KeyIssues(s, inputs);
    P.PressIssues(s.t0, s.me, s.events, inputs);
  }

  lemma TakeExact(s: S.System)
    requires Exact(s) && |s.taken| < |S.AllIssued(s)|
    ensures var p := S.AllIssued(s)[|s.taken|];
      Exact(s.(taken := s.taken + [p], server := S.Handle(s.server, p)))
  {
    hide S.Coherent, S.Top, S.Can, P.Greatest, S.Handle, S.HandleAll, P.Issued;
    var p := S.AllIssued(s)[|s.taken|];
    var s' := TakesWhole(s);
    S.HandlerCompletes(s);
    S.HandlerCompletes(s');
    S.HandleAllNext(S.Server(0, s.start), s.taken, p);
    S.TopNext(s.taken, p);
    assert s' == s.(taken := s.taken + [p], server := S.Handle(s.server, p));
  }

  // The five steps of the handler, from one input to the next.
  lemma TakesWhole(s: S.System) returns (s': S.System)
    requires S.Coherent(s) && s.stage == 0 && s.reading.None? && |s.taken| < |S.AllIssued(s)|
    ensures S.Coherent(s')
    ensures s' == s.(taken := s.taken + [S.AllIssued(s)[|s.taken|]], server := s'.server)
  {
    hide S.Coherent;
    var a := S.Raise(|s.taken|);
    S.DoCoherent(s, a);
    s' := S.Do(s, a);
    s' := Flagged(s');
    s' := Flagged(s');
    s' := Flagged(s');
    s' := Flagged(s');
  }

  lemma Flagged(s: S.System) returns (s': S.System)
    requires S.Coherent(s) && 0 < s.stage <= 4 && s.taken != []
    ensures S.Coherent(s')
    ensures s' == s.(stage := if s.stage < 4 then s.stage + 1 else 0, server := s'.server)
  {
    hide S.Coherent, S.Moved;
    S.DoCoherent(s, S.Flag);
    s' := S.Do(s, S.Flag);
  }

  lemma ReadExact(s: S.System)
    requires Exact(s)
    ensures Exact(s.(sent := s.sent + [S.Sent(s.taken, s.server.ack, s.server.at, S.NOWHERE)]))
  {
    hide S.Coherent, S.Top, P.Greatest, P.Issued;
    S.DoCoherent(s, S.ReadX);
    S.DoCoherent(S.Do(s, S.ReadX), S.ReadY);
    assert S.Broadcast(s) == s.(sent := s.sent + [S.Sent(s.taken, s.server.ack, s.server.at, S.NOWHERE)]);
    AckIsTop(s);
  }

  lemma AckIsTop(s: S.System)
    requires S.Coherent(s)
    ensures s.server.ack == S.Top(s.taken)
  {
  }

  lemma ReceiveExact(s: S.System, n: nat)
    requires Exact(s) && n < |s.sent| && P.Greatest(s.events) <= s.sent[n].ack
    ensures var m := s.sent[n];
      var s' := s.(events := s.events + [P.Snapshot(m.ack, m.at)], last := m.taken, owed := m.owed);
      && Exact(s') && S.AllIssued(s') == S.AllIssued(s)
      && S.Client(s') == P.Reconcile(S.Client(s), m.ack, m.at)
      && P.Greatest(s'.events) == m.ack
  {
    hide S.Coherent, S.Top, P.Greatest, P.Issued, P.Reconcile;
    var a := S.Receive(n);
    assert s.sent[n] in s.sent;
    S.DoCoherent(s, a);
    S.TakesNext(s, a);
    S.TopKept(s, a);
    S.ReceiveSees(s, n);
    LiveNext(s.t0, s.me, s.events, s.sent[n].ack, s.sent[n].at);
  }

  lemma LiveNext(t0: nat, me: nat, events: seq<P.Event>, ack: nat, at: Point)
    ensures P.Live(t0, me, events + [P.Snapshot(ack, at)]) == P.Reconcile(P.Live(t0, me, events), ack, at)
  {
    assert (events + [P.Snapshot(ack, at)])[..|events|] == events;
  }

  lemma ShowsAll(s: S.System)
    requires Exact(s) && S.Client(s).pos.Some?
    ensures S.Client(s).pos.value == Plus(BEGINNING, Displacement([Hello(s.me)] + S.AllIssued(s)))
  {
    hide S.Coherent, S.Top, P.Live, P.Issued, P.Greatest, Displacement;
    S.NothingMissed(s);
    DisplacementConcat([Hello(s.me)], S.AllIssued(s));
    DisplacementOne(Hello(s.me));
    AfterNothing(Displacement(S.AllIssued(s)));
  }

  lemma AfterNothing(p: Point)
    ensures Plus(Shift(NO_INPUTS), p) == p
  {
  }

  // ---------- what comes in at the client ----------

  // The snapshots of one player among the packets.
  datatype Snap = Snap(ack: nat, at: Point)

  function Snaps(ps: seq<Packet>, me: nat): seq<Snap> {
    if |ps| == 0 then []
    else
      var before, p := Snaps(ps[..|ps| - 1], me), ps[|ps| - 1];
      if Screen.StateOf(p, me) then before + [Snap(p.lastProcessedTick, p.pos)] else before
  }

  lemma {:induction false} SnapsConcat(a: seq<Packet>, b: seq<Packet>, me: nat)
    ensures Snaps(a + b, me) == Snaps(a, me) + Snaps(b, me)
  {
    if |b| == 0 {
      assert a + b == a;
    } else {
      SnapsConcat(a, b[..|b| - 1], me);
      assert (a + b)[..|a + b| - 1] == a + b[..|b| - 1];
    }
  }

  // Packets about entities and bosses.
  predicate Neutral(p: Packet) {
    !p.PlayerState? && !p.PlayerDisconnect?
  }

  ghost predicate AllNeutral(ps: seq<Packet>) {
    forall p :: p in ps ==> Neutral(p)
  }

  lemma {:induction false} NeutralSnaps(ps: seq<Packet>, me: nat)
    requires AllNeutral(ps)
    ensures Snaps(ps, me) == []
  {
    if |ps| > 0 {
      assert ps[|ps| - 1] in ps;
      NeutralSnaps(ps[..|ps| - 1], me);
    }
  }

  lemma {:induction false} VolleyNeutral(w: World, n: nat)
    requires n <= |w.entities|
    ensures AllNeutral(Volleys(w, n).packets)
  {
    hide FirstTarget;
    if n > 0 { VolleyNeutral(w, n - 1); }
  }

  lemma SectionNeutral(w: World, s: Section)
    ensures AllNeutral(Emitted(w, s))
  {
    hide Volleys, BossFires, BossShots;
    if s.Collide? { VolleyNeutral(w, |w.entities|); }
  }

  lemma {:induction false} RunNeutral(w: World, run: seq<Section>)
    ensures AllNeutral(Emission(w, run))
  {
    hide Emitted, Exec;
    if |run| > 0 {
      RunNeutral(w, run[..|run| - 1]);
      SectionNeutral(Exec(w, run[..|run| - 1]), run[|run| - 1]);
    }
  }

  // The one with this id, and nobody else has it.
  ghost predicate Only(players: seq<Player>, me: nat, k: nat) {
    k < |players| && forall i :: 0 <= i < |players| ==> (players[i].id == me <==> i == k)
  }

  lemma {:induction false} NoSnapsOfOthers(players: seq<Player>, me: nat)
    requires forall i :: 0 <= i < |players| ==> players[i].id != me
    ensures Snaps(StatePackets(players), me) == []
  {
    if |players| > 0 { NoSnapsOfOthers(players[..|players| - 1], me); }
  }

  lemma {:induction false} OneSnap(players: seq<Player>, me: nat, k: nat)
    requires Only(players, me, k) && players[k].addrSet
    ensures Snaps(StatePackets(players), me) == [Snap(players[k].lastProcessedTick, players[k].Pos())]
  {
    var n := |players| - 1;
    var init := players[..n];
    if k == n {
      NoSnapsOfOthers(init, me);
    } else {
      OneSnap(init, me, k);
    }
  }

  lemma {:induction false} StatesEndNobody(players: seq<Player>)
    ensures forall p :: p in StatePackets(players) ==> p.PlayerState?
  {
    if |players| > 0 { StatesEndNobody(players[..|players| - 1]); }
  }

  // ---------- the links ----------

  // The client stands where the system says, and has handed over the hello and its inputs.
  ghost predicate ClientLinked(client: C.RTypeClient, s: S.System)
    reads client
  {
    && client.myId == s.me && client.status != Screen.GAME_OVER
    && client.Predictor() == S.Client(s)
    && client.sent == [Hello(s.me)] + S.AllIssued(s)
  }

  // The game's record of the player is that of the system, and has an address of its own.
  ghost predicate GameLinked(players: seq<Player>, s: S.System, addr: nat, k: nat) {
    && Only(players, s.me, k) && players[k].addrSet && Standing(players[k]) == s.server
    && Listed(Addresses(players), addr)
  }

  function SentSnaps(s: S.System): seq<Snap> {
    seq(|s.sent|, i requires 0 <= i < |s.sent| => Snap(s.sent[i].ack, s.sent[i].at))
  }

  // What has been queued for the client are the system's snapshots, among packets that do not matter here;
  // the greatest acknowledgement received is that of the last snapshot delivered.
  ghost predicate WireLinked(inbox: seq<Packet>, s: S.System, delivered: nat) {
    && delivered <= |inbox|
    && Snaps(inbox, s.me) == SentSnaps(s)
    && (forall p :: p in inbox ==> !p.PlayerDisconnect?)
    && var n := |Snaps(inbox[..delivered], s.me)|;
       && n <= |s.sent| && P.Greatest(s.events) == (if n == 0 then 0 else s.sent[n - 1].ack)
       && (S.Client(s).pos.Some? <==> n > 0)
  }

  lemma SnapsGrow(inbox: seq<Packet>, more: seq<Packet>, me: nat, delivered: nat)
    requires delivered <= |inbox|
    ensures (inbox + more)[..delivered] == inbox[..delivered]
    ensures Snaps(inbox + more, me) == Snaps(inbox, me) + Snaps(more, me)
  {
    SnapsConcat(inbox, more, me);
  }

  // More packets that do not matter.
  lemma NeutralLinked(inbox: seq<Packet>, more: seq<Packet>, s: S.System, delivered: nat)
    requires WireLinked(inbox, s, delivered) && AllNeutral(more)
    ensures WireLinked(inbox + more, s, delivered)
  {
    hide Snaps, P.Greatest;
    SnapsGrow(inbox, more, s.me, delivered);
    NeutralSnaps(more, s.me);
  }

  // A step of the system that sends nothing and receives nothing.
  lemma QuietLinked(inbox: seq<Packet>, s: S.System, s': S.System, delivered: nat)
    requires WireLinked(inbox, s, delivered)
    requires s'.me == s.me && s'.sent == s.sent && P.Greatest(s'.events) == P.Greatest(s.events)
    requires S.Client(s').pos.Some? == S.Client(s).pos.Some?
    ensures WireLinked(inbox, s', delivered)
  {
    hide Snaps, P.Greatest;
    assert SentSnaps(s') == SentSnaps(s);
  }

  // What one update queues for the client.
  lemma UpdateLinked(inbox: seq<Packet>, s: S.System, delivered: nat, before: seq<Packet>, players: seq<Player>,
                     rest: seq<Packet>, addr: nat, k: nat)
    requires WireLinked(inbox, s, delivered) && AllNeutral(before) && AllNeutral(rest)
    requires GameLinked(players, s, addr, k)
    ensures WireLinked(inbox + (before + StatePackets(players) + rest),
                       s.(sent := s.sent + [S.Sent(s.taken, s.server.ack, s.server.at, S.NOWHERE)]), delivered)
  {
    hide Snaps, P.Greatest, StatePackets, AllNeutral;
    var more := before + StatePackets(players) + rest;
    SnapsGrow(inbox, more, s.me, delivered);
    SnapsConcat(before + StatePackets(players), rest, s.me);
    SnapsConcat(before, StatePackets(players), s.me);
    NeutralSnaps(before, s.me);
    NeutralSnaps(rest, s.me);
    OneSnap(players, s.me, k);
    StatesEndNobody(players);
    NoEnds(before);
    NoEnds(rest);
    var s' := s.(sent := s.sent + [S.Sent(s.taken, s.server.ack, s.server.at, S.NOWHERE)]);
    assert SentSnaps(s') == SentSnaps(s) + [Snap(s.server.ack, s.server.at)];
  }

  lemma NoEnds(ps: seq<Packet>)
    requires AllNeutral(ps)
    ensures forall p :: p in ps ==> !p.PlayerDisconnect?
  {
  }

  // The packet delivered next: what it is to the system.
  lemma NextDelivered(inbox: seq<Packet>, s: S.System, delivered: nat) returns (n: nat)
    requires Exact(s) && WireLinked(inbox, s, delivered) && delivered < |inbox|
    ensures !inbox[delivered].PlayerDisconnect?
    ensures Screen.StateOf(inbox[delivered], s.me) ==>
              && n < |s.sent| && P.Greatest(s.events) <= s.sent[n].ack
              && inbox[delivered].lastProcessedTick == s.sent[n].ack && inbox[delivered].pos == s.sent[n].at
              && |Snaps(inbox[..delivered + 1], s.me)| == n + 1
    ensures !Screen.StateOf(inbox[delivered], s.me) ==>
              Snaps(inbox[..delivered + 1], s.me) == Snaps(inbox[..delivered], s.me)
  {
    hide P.Greatest, S.Coherent, S.Top;
    var seen, p := inbox[..delivered], inbox[delivered];
    n := |Snaps(seen, s.me)|;
    assert inbox[..delivered + 1][..delivered] == seen;
    assert p in inbox;
    assert inbox == inbox[..delivered + 1] + inbox[delivered + 1..];
    SnapsConcat(inbox[..delivered + 1], inbox[delivered + 1..], s.me);
    if Screen.StateOf(p, s.me) {
      assert SentSnaps(s)[n] == Snap(p.lastProcessedTick, p.pos);
    }
  }

  // ---------- the session ----------

  // What happens next: a press at the client; the arrival of its next input at the game, or of an input of
  // somebody else; an update of the game; the delivery of the next packet to the client.
  datatype Step =
    | Press(inputs: Inputs)
    | Arrive
    | Other(pkt: InputPacket)
    | Round(sin: real -> real, enemyDue: bool, spawnY: int, syncDue: bool)
    | Deliver(nowMs: nat)

  ghost predicate Linked(game: G.Game, udp: G.Outbox, client: C.RTypeClient, s: S.System, addr: nat, k: nat,
                         base: nat, delivered: nat)
    reads game, udp, client
  {
    && Exact(s) && ClientLinked(client, s) && GameLinked(game.players, s, addr, k)
    && base <= |udp.log| && WireLinked(Inbox(udp.log[base..], addr), s, delivered)
  }

  method PressKeys(client: C.RTypeClient, inputs: Inputs, ghost s: S.System) returns (ghost s': S.System)
    requires Exact(s) && ClientLinked(client, s)
    modifies client
    ensures Exact(s') && ClientLinked(client, s') && s' == s.(events := s'.events)
    ensures P.Greatest(s'.events) == P.Greatest(s.events)
    ensures S.Client(s').pos.Some? == S.Client(s).pos.Some?
  {
    hide Exact, P.Live, P.Issued, P.Greatest;
    KeyExact(s, inputs);
    s' := s.(events := s.events + [P.Press(inputs)]);
    client.HandleInput(inputs);
  }

  // An input reaches the game, of this player or another.
  method HandIn(game: G.Game, udp: G.Outbox, pkt: InputPacket, addr: nat, ghost base: nat)
    requires base <= |udp.log| && Listed(Addresses(game.players), addr)
    modifies game, udp
    ensures game.players == AfterInput(old(game.players), pkt) && Listed(Addresses(game.players), addr)
    ensures base <= |udp.log|
    ensures old(Inbox(udp.log[base..], addr)) <= Inbox(udp.log[base..], addr)
    ensures AllNeutral(Inbox(udp.log[base..], addr)[|old(Inbox(udp.log[base..], addr))|..])
  {
    hide Exec, RunLog, Addresses, AfterInput, Inbox, Emission, AllNeutral, Listed, G.ShotsAfter;
    ghost var g := game.Value();
    ghost var log, more := udp.log, G.HandleLog(g, pkt);
    InputSameAddresses(game.players, pkt);
    game.HandlePlayerInput(pkt, udp);
    InboxOfRun(g.world, G.ShotsAfter(g.players, pkt), Addresses(AfterInput(g.players, pkt)), addr);
    RunNeutral(g.world, G.ShotsAfter(g.players, pkt));
    LogTail(log, more, base);
    InboxConcat(log[base..], more, addr);
    TailAfter(Inbox(log[base..], addr), Inbox(more, addr));
  }

  lemma InputSameAddresses(players: seq<Player>, pkt: InputPacket)
    ensures Addresses(AfterInput(players, pkt)) == Addresses(players)
  {
    hide Addresses;
    G.SameAddresses(players, AfterInput(players, pkt));
  }

  lemma LogTail<T>(log: seq<T>, more: seq<T>, base: nat)
    requires base <= |log|
    ensures (log + more)[base..] == log[base..] + more
  {
  }

  lemma TailAfter<T>(a: seq<T>, b: seq<T>)
    ensures (a + b)[|a|..] == b && a <= a + b
  {
  }

  lemma TailBack<T>(a: seq<T>, all: seq<T>)
    requires a <= all
    ensures all == a + all[|a|..]
  {
  }

  lemma OwnInput(players: seq<Player>, pkt: InputPacket, k: nat)
    requires Only(players, pkt.playerId, k)
    ensures Only(AfterInput(players, pkt), pkt.playerId, k)
    ensures Standing(AfterInput(players, pkt)[k]) == S.Handle(Standing(players[k]), pkt)
    ensures AfterInput(players, pkt)[k].addrSet == players[k].addrSet
  {
    assert players[k].id == pkt.playerId;
    AdvanceIsHandle(players[k], pkt);
  }

  lemma OthersInput(players: seq<Player>, pkt: InputPacket, me: nat, k: nat)
    requires Only(players, me, k) && pkt.playerId != me
    ensures Only(AfterInput(players, pkt), me, k) && AfterInput(players, pkt)[k] == players[k]
  {
  }

  // The client's next input reaches the game.
  method ArriveNext(game: G.Game, udp: G.Outbox, client: C.RTypeClient, addr: nat, ghost k: nat, ghost base: nat,
                    ghost delivered: nat, handled: nat, ghost s: S.System) returns (ghost s': S.System)
    requires Linked(game, udp, client, s, addr, k, base, delivered)
    requires handled == |s.taken| + 1 < |client.sent|
    modifies game, udp
    ensures Linked(game, udp, client, s', addr, k, base, delivered) && |s'.taken| == handled
  {
    hide Exact, WireLinked, Inbox, P.Live, P.Issued, Addresses, Listed, Standing, S.Handle, AfterInput, AllNeutral;
    var pkt := client.sent[handled];
    ghost var inbox := Inbox(udp.log[base..], addr);
    assert pkt == S.AllIssued(s)[|s.taken|];
    IssuedByMe(s, |s.taken|);
    TakeExact(s);
    s' := s.(taken := s.taken + [pkt], server := S.Handle(s.server, pkt));
    OwnInput(game.players, pkt, k);
    HandIn(game, udp, pkt, addr, base);
    ghost var now := Inbox(udp.log[base..], addr);
    TailBack(inbox, now);
    NeutralLinked(inbox, now[|inbox|..], s, delivered);
    QuietLinked(now, s, s', delivered);
  }

  lemma IssuedByMe(s: S.System, i: nat)
    requires i < |S.AllIssued(s)|
    ensures S.AllIssued(s)[i].playerId == s.me
  {
    IssuedIds(s.t0, s.me, s.events);
  }

  lemma {:induction false} IssuedIds(t0: nat, me: nat, events: seq<P.Event>)
    ensures forall p :: p in P.Issued(t0, me, events) ==> p.playerId == me
  {
    if |events| > 0 { IssuedIds(t0, me, events[..|events| - 1]); }
  }

  // An input of somebody else reaches the game.
  method ArriveOther(game: G.Game, udp: G.Outbox, client: C.RTypeClient, addr: nat, ghost k: nat, ghost base: nat,
                     ghost delivered: nat, pkt: InputPacket, ghost s: S.System)
    requires Linked(game, udp, client, s, addr, k, base, delivered) && pkt.playerId != s.me
    modifies game, udp
    ensures Linked(game, udp, client, s, addr, k, base, delivered)
  {
    hide Exact, WireLinked, Inbox, P.Live, P.Issued, Addresses, Listed, Standing, AfterInput, AllNeutral;
    ghost var inbox := Inbox(udp.log[base..], addr);
    OthersInput(game.players, pkt, s.me, k);
    HandIn(game, udp, pkt, addr, base);
    ghost var now := Inbox(udp.log[base..], addr);
    TailBack(inbox, now);
    NeutralLinked(inbox, now[|inbox|..], s, delivered);
  }

  lemma NumberedLinked(players: seq<Player>, s: S.System, addr: nat, k: nat)
    requires GameLinked(players, s, addr, k)
    ensures GameLinked(AllNumbered(players), s, addr, k)
  {
    hide Addresses, Listed;
    G.SameStates(players);
  }

  // One update of the game.
  method PlayRound(game: G.Game, udp: G.Outbox, client: C.RTypeClient, addr: nat, ghost k: nat, ghost base: nat,
                   ghost delivered: nat, sin: real -> real, enemyDue: bool, spawnY: int, syncDue: bool,
                   ghost s: S.System) returns (ghost s': S.System)
    requires Linked(game, udp, client, s, addr, k, base, delivered)
    modifies game, udp
    ensures Linked(game, udp, client, s', addr, k, base, delivered) && s' == s.(sent := s'.sent)
  {
    hide Exact, WireLinked, GameLinked, ClientLinked, Inbox, Addresses, Listed, Exec, RunLog, FanoutAll, StatePackets,
      AllNumbered, Emission, AllNeutral;
    ghost var before, rest := G.Game.Before(game.players), G.Game.Rest(sin, enemyDue, spawnY, syncDue);
    ghost var w, players, log, addrs := game.State(), game.players, udp.log, Addresses(game.players);
    game.Update(udp, sin, enemyDue, spawnY, syncDue);
    s' := s;
    if game.status == G.PLAYING {
      ghost var inbox, more := Inbox(log[base..], addr), Session.UpdateLog(w, before, players, rest, addrs);
      s' := s.(sent := s.sent + [S.Sent(s.taken, s.server.ack, s.server.at, S.NOWHERE)]);
      ReadExact(s);
      LinkedBook(players, s, addr, k);
      ghost var r := Place(addrs, addr);
      Session.InboxOfUpdate(w, before, players, rest, addrs, addr, r);
      RunNeutral(w, before);
      RunNeutral(Exec(w, before), rest);
      UpdateLinked(inbox, s, delivered, Emission(w, before), players, Emission(Exec(w, before), rest), addr, k);
      NumberedLinked(players, s, addr, k);
      SentStays(AllNumbered(players), s, s', addr, k);
      Joined(log, RunLog(w, before, addrs), FanoutAll(StatePackets(players), addrs),
             RunLog(Exec(w, before), rest, addrs));
      LogTail(log, more, base);
      InboxConcat(log[base..], more, addr);
      ClientStays(client, s, s');
    }
  }

  lemma Joined<T>(log: seq<T>, a: seq<T>, b: seq<T>, c: seq<T>)
    ensures log + a + b + c == log + (a + b + c)
  {
  }

  lemma LinkedBook(players: seq<Player>, s: S.System, addr: nat, k: nat)
    requires GameLinked(players, s, addr, k)
    ensures Listed(Addresses(players), addr)
  {
  }

  lemma SentStays(players: seq<Player>, s: S.System, s': S.System, addr: nat, k: nat)
    requires GameLinked(players, s, addr, k) && s'.me == s.me && s'.server == s.server
    ensures GameLinked(players, s', addr, k)
  {
  }

  lemma ClientStays(client: C.RTypeClient, s: S.System, s': S.System)
    requires ClientLinked(client, s) && s'.me == s.me && s'.t0 == s.t0 && s'.events == s.events
    ensures ClientLinked(client, s')
  {
  }

  // The next packet comes in at the client.
  method DeliverNext(client: C.RTypeClient, inbox: seq<Packet>, delivered: nat, nowMs: nat, ghost s: S.System)
    returns (ghost s': S.System)
    requires Exact(s) && ClientLinked(client, s) && WireLinked(inbox, s, delivered) && delivered < |inbox|
    requires nowMs < L.WORD
    modifies client
    ensures Exact(s') && ClientLinked(client, s') && WireLinked(inbox, s', delivered + 1)
    ensures s' == s.(events := s'.events, last := s'.last, owed := s'.owed)
  {
    hide Exact, Snaps, P.Live, P.Issued, P.Greatest, L.Take, L.Reports;
    var p := inbox[delivered];
    ghost var n := NextDelivered(inbox, s, delivered);
    client.OnPacket(p, nowMs);
    s' := s;
    if Screen.StateOf(p, s.me) {
      ghost var m := s.sent[n];
      ReceiveExact(s, n);
      s' := s.(events := s.events + [P.Snapshot(m.ack, m.at)], last := m.taken, owed := m.owed);
      assert SentSnaps(s') == SentSnaps(s);
    }
  }

  /** From a client and a game that have just met, whatever is pressed and whatever else happens, in any order:
      the client holds its own player as soon as one of the packets delivered to it is a state of that player,
      and from then on it shows it, at every moment, at its start plus the sum of everything it has sent. */
  method Play(game: G.Game, udp: G.Outbox, client: C.RTypeClient, addr: nat, t0: nat, ghost k: nat, steps: seq<Step>)
    returns (delivered: nat)
    requires t0 >= 1 && client.status == Screen.PLAYING && client.sent == [Hello(client.myId)]
    requires client.Predictor() == P.Live(t0, client.myId, [])
    requires Only(game.players, client.myId, k) && game.players[k].addrSet
    requires Standing(game.players[k]) == Standing(NewPlayer(client.myId)) && Listed(Addresses(game.players), addr)
    modifies game, udp, client
    ensures |old(udp.log)| <= |udp.log| && delivered <= |Inbox(udp.log[|old(udp.log)|..], addr)|
    ensures client.myId in client.players <==>
              exists p :: p in Inbox(udp.log[|old(udp.log)|..], addr)[..delivered] && Screen.StateOf(p, client.myId)
    ensures client.myId in client.players ==>
              var p := client.players[client.myId];
              Point(p.x, p.y) == Plus(BEGINNING, Displacement(client.sent))
  {
    hide Exact, WireLinked, GameLinked, Inbox, P.Live, P.Issued, P.Greatest, Displacement, Addresses, Listed;
    var base, handled := |udp.log|, 1;
    delivered := 0;
    ghost var s := S.Init(t0, client.myId, BEGINNING);
    Begins(game.players, client.myId, addr, k, t0);
    assert udp.log[base..] == [];
    for i := 0 to |steps|
      invariant Linked(game, udp, client, s, addr, k, base, delivered) && handled == |s.taken| + 1
    {
      match steps[i]
      case Press(inputs) =>
        ghost var before := s;
        s := PressKeys(client, inputs, s);
        QuietLinked(Inbox(udp.log[base..], addr), before, s, delivered);
        SentStays(game.players, before, s, addr, k);
      case Arrive =>
        if handled < |client.sent| {
          s := ArriveNext(game, udp, client, addr, k, base, delivered, handled, s);
          handled := handled + 1;
        }
      case Other(pkt) =>
        if pkt.playerId != client.myId {
          ArriveOther(game, udp, client, addr, k, base, delivered, pkt, s);
        }
      case Round(sin, enemyDue, spawnY, syncDue) =>
        s := PlayRound(game, udp, client, addr, k, base, delivered, sin, enemyDue, spawnY, syncDue, s);
      case Deliver(nowMs) =>
        var inbox := Inbox(udp.log[base..], addr);
        if delivered < |inbox| && nowMs < L.WORD {
          ghost var before := s;
          s := DeliverNext(client, inbox, delivered, nowMs, s);
          SentStays(game.players, before, s, addr, k);
          delivered := delivered + 1;
        }
    }
    if client.myId in client.players { ShowsAll(s); }
    HoldsIff(Inbox(udp.log[base..], addr), s, delivered);
  }

  lemma HoldsIff(inbox: seq<Packet>, s: S.System, delivered: nat)
    requires WireLinked(inbox, s, delivered)
    ensures delivered <= |inbox|
    ensures S.Client(s).pos.Some? <==> exists p :: p in inbox[..delivered] && Screen.StateOf(p, s.me)
  {
    hide P.Greatest, P.Live;
    SnapsIff(inbox[..delivered], s.me);
  }

  lemma {:induction false} SnapsIff(ps: seq<Packet>, me: nat)
    ensures |Snaps(ps, me)| > 0 <==> exists p :: p in ps && Screen.StateOf(p, me)
  {
    if |ps| > 0 {
      var init, last := ps[..|ps| - 1], ps[|ps| - 1];
      SnapsIff(init, me);
      assert ps == init + [last];
    }
  }

  lemma Begins(players: seq<Player>, me: nat, addr: nat, k: nat, t0: nat)
    requires t0 >= 1 && Only(players, me, k) && players[k].addrSet
    requires Standing(players[k]) == Standing(NewPlayer(me)) && Listed(Addresses(players), addr)
    ensures var s := S.Init(t0, me, BEGINNING);
      && Exact(s) && S.Client(s) == P.Live(t0, me, []) && S.AllIssued(s) == []
      && GameLinked(players, s, addr, k) && WireLinked(Inbox([], addr), s, 0)
  {
    InitExact(t0, me);
  }
}
