/** The state packets of one player, from the server's counter to the client's loss meter: through the
    bounded outgoing buffer, which may refuse them, and a network that may drop them. */
module StateStream {
  import opened Basics
  import opened Protocol
  import opened Players
  import opened RingBuffers
  import opened Wire
  import Gaps
  import L = LossWindow

  const CAPACITY: nat := 1024

  // The player is `me` and its client is at `addr`. `backlog` holds the datagrams of the state that is
  // being broadcast and that have not been offered to the outgoing buffer; `wire` those sent and neither
  // dropped nor delivered. The rest are logs: `queued` the numbers of the states queued for the client,
  // `lost` of those refused by the buffer or dropped, `arrivals` what the client has received.
  datatype Net = Net(
    me: nat, addr: nat, lo: nat, next: nat, players: seq<Player>,
    backlog: seq<Datagram>, ring: Ring<Datagram>, wire: seq<Datagram>,
    meter: L.Meter, queued: seq<nat>, lost: seq<nat>, arrivals: seq<L.Arrival>)

  // Between the broadcasts of states anything may happen to the players, and other threads offer other
  // packets to the same buffer.
  datatype Step =
    | SendState(i: nat)
    | Offer
    | OfferOther(d: Datagram)
    | Send
    | Drop(i: nat)
    | Deliver(now: nat)
    | Input(pkt: InputPacket)
    | Learn(id: nat, at: nat)
    | Leave(id: nat)
    | Join(id: nat)

  // A state of the own player on its way to its client.
  predicate Own(n: Net, d: Datagram) {
    d.addr == n.addr && d.packet.PlayerState? && d.packet.playerId == n.me
  }

  function LastArrival(arrivals: seq<L.Arrival>): nat {
    if arrivals == [] then 0 else arrivals[|arrivals| - 1].at
  }

  predicate Enabled(n: Net, s: Step) {
    ValidRing(n.ring) &&
    match s
    case SendState(i) => n.backlog == [] && i < |n.players| && n.players[i].addrSet
    case Offer => n.backlog != []
    case OfferOther(d) => !Own(n, d)
    case Send => n.ring.size > 0
    case Drop(i) => i < |n.wire|
    case Deliver(now) => n.wire != [] && LastArrival(n.arrivals) <= now < L.WORD
    case Input(_) => true
    case Learn(id, at) => id == n.me <==> at == n.addr
    case Leave(_) => true
    case Join(id) => id != n.me
  }

  function Lose(n: Net, d: Datagram): Net {
    if Own(n, d) then n.(lost := n.lost + [d.packet.sequence]) else n
  }

  // One round of the broadcast: the state of player i to everybody.
  function Stated(n: Net, i: nat): Net
    requires i < |n.players|
  {
    var p := n.players[i];
    var ds := Fanout(StatePacket(p), Addresses(n.players));
    n.(players := n.players[i := Numbered(p)], backlog := ds, queued := n.queued + Numbers(n.me, n.addr, ds),
       next := if p.id == n.me then n.next + 1 else n.next)
  }

  function Offered(n: Net): Net
    requires ValidRing(n.ring) && n.backlog != []
  {
    var n' := n.(backlog := n.backlog[1..]);
    if n.ring.size == |n.ring.slots| then Lose(n', n.backlog[0])
    else n'.(ring := Pushed(n.ring, n.backlog[0]))
  }

  function Sent(n: Net): Net
    requires ValidRing(n.ring) && n.ring.size > 0
  {
    n.(ring := Popped(n.ring), wire := n.wire + [Front(n.ring).value])
  }

  function Delivered(n: Net, now: nat): Net
    requires n.wire != [] && now < L.WORD
  {
    var d, n' := n.wire[0], n.(wire := n.wire[1..]);
    if Own(n, d) then
      n'.(meter := L.Take(n.meter, d.packet.sequence, now),
          arrivals := n.arrivals + [L.Arrival(d.packet.sequence, now)])
    else n'
  }

  function Next(n: Net, s: Step): Net
    requires Enabled(n, s)
  {
    match s
    case SendState(i) => Stated(n, i)
    case Offer => Offered(n)
    case OfferOther(d) => n.(ring := Pushed(n.ring, d))
    case Send => Sent(n)
    case Drop(i) => Lose(n.(wire := n.wire[..i] + n.wire[i + 1..]), n.wire[i])
    case Deliver(now) => Delivered(n, now)
    case Input(pkt) => n.(players := AfterInput(n.players, pkt))
    case Learn(id, at) => n.(players := Addressed(n.players, id, at))
    case Leave(id) => n.(players := Without(n.players, id))
    case Join(id) => n.(players := n.players + [NewPlayer(id)])
  }

  // ---------- the numbers in a stretch of datagrams ----------

  function Numbers(me: nat, addr: nat, ds: seq<Datagram>): seq<nat> {
    SequencesOf(Inbox(ds, addr), me)
  }

  lemma NumbersConcat(me: nat, addr: nat, a: seq<Datagram>, b: seq<Datagram>)
    ensures Numbers(me, addr, a + b) == Numbers(me, addr, a) + Numbers(me, addr, b)
  {
    InboxConcat(a, b, addr);
    SequencesConcat(Inbox(a, addr), Inbox(b, addr), me);
  }

  lemma NumbersNone(me: nat, addr: nat)
    ensures Numbers(me, addr, []) == []
  {
  }

  lemma SequencesOne(p: Packet, id: nat)
    ensures SequencesOf([p], id) == if p.PlayerState? && p.playerId == id then [p.sequence] else []
  {
    assert [p][..0] == [];
  }

  lemma NumbersOne(n: Net, d: Datagram)
    ensures Numbers(n.me, n.addr, [d]) == if Own(n, d) then [d.packet.sequence] else []
    ensures Lose(n, d) == n.(lost := n.lost + Numbers(n.me, n.addr, [d]))
  {
    assert [d][..0] == [] && n.lost + [] == n.lost;
    if d.addr == n.addr {
      assert Inbox([d], n.addr) == [d.packet];
      SequencesOne(d.packet, n.me);
    } else {
      assert Inbox([d], n.addr) == [];
    }
  }

  // ---------- who the players are ----------

  ghost predicate Single(players: seq<Player>, me: nat) {
    forall i, j :: 0 <= i < j < |players| ==> players[i].id == me ==> players[j].id != me
  }

  // Nobody else has the client's address.
  predicate Located(p: Player, me: nat, addr: nat) {
    p.addrSet ==> (p.addr == addr <==> p.id == me)
  }

  ghost predicate Peopled(n: Net) {
    && Single(n.players, n.me)
    && forall i :: 0 <= i < |n.players| ==>
         && Located(n.players[i], n.me, n.addr)
         && (n.players[i].id == n.me ==> n.players[i].stateSequence == n.next)
  }

  // The player is there and its address is known.
  ghost predicate Reachable(players: seq<Player>, me: nat) {
    exists i :: 0 <= i < |players| && players[i].id == me && players[i].addrSet
  }

  lemma FanoutNext(p: Packet, addrs: seq<nat>, a: nat)
    ensures Fanout(p, addrs + [a]) == Fanout(p, addrs) + [Datagram(a, p)]
  {
  }

  lemma {:induction false} InboxOfPlayer(p: Packet, players: seq<Player>, me: nat, addr: nat)
    requires Single(players, me)
    requires forall i :: 0 <= i < |players| ==> Located(players[i], me, addr)
    ensures Inbox(Fanout(p, Addresses(players)), addr) == if Reachable(players, me) then [p] else []
  {
    if |players| > 0 {
      var init, last := players[..|players| - 1], players[|players| - 1];
      InboxOfPlayer(p, init, me, addr);
      ReachableNext(players, me);
      assert Located(last, me, addr);
      if last.addrSet {
        FanoutNext(p, Addresses(init), last.addr);
        InboxConcat(Fanout(p, Addresses(init)), [Datagram(last.addr, p)], addr);
        assert [Datagram(last.addr, p)][..0] == [];
      }
    }
  }

  lemma ReachableNext(players: seq<Player>, me: nat)
    requires |players| > 0 && Single(players, me)
    ensures var init, last := players[..|players| - 1], players[|players| - 1];
      && (last.id == me && last.addrSet ==> Reachable(players, me) && !Reachable(init, me))
      && (!(last.id == me && last.addrSet) ==> (Reachable(players, me) <==> Reachable(init, me)))
  {
    var init, last := players[..|players| - 1], players[|players| - 1];
    assert forall i :: 0 <= i < |init| ==> init[i] == players[i];
    if last.id == me && last.addrSet {
      assert players[|players| - 1].id == me;
    } else if i :| 0 <= i < |players| && players[i].id == me && players[i].addrSet {
      assert init[i].id == me;
    }
  }

  // A state of the own player is queued once for its client, one of another player not at all.
  lemma StateQueued(n: Net, i: nat)
    requires Peopled(n) && i < |n.players| && n.players[i].addrSet
    ensures Numbers(n.me, n.addr, Fanout(StatePacket(n.players[i]), Addresses(n.players)))
         == if n.players[i].id == n.me then [n.next] else []
  {
    var p := StatePacket(n.players[i]);
    InboxOfPlayer(p, n.players, n.me, n.addr);
    hide Inbox, Fanout, Addresses;
    assert n.players[i].id == n.me ==> Reachable(n.players, n.me);
    SequencesOne(p, n.me);
  }

  lemma {:induction false} WithoutKeeps(players: seq<Player>, id: nat, me: nat)
    requires Single(players, me)
    ensures Single(Without(players, id), me)
    ensures forall p :: p in Without(players, id) ==> p in players
  {
    if |players| > 0 {
      var init, last := players[..|players| - 1], players[|players| - 1];
      WithoutKeeps(init, id, me);
      assert players == init + [last];
      var rest := Without(init, id);
      forall i | 0 <= i < |rest| && last.id == me ensures rest[i].id != me {
        assert rest[i] in init;
      }
    }
  }

  lemma SamePeople(n: Net, n': Net)
    requires Peopled(n) && n'.me == n.me && n'.addr == n.addr && n'.next == n.next
    requires |n'.players| == |n.players|
    requires forall i :: 0 <= i < |n.players| ==>
      && n'.players[i].id == n.players[i].id && n'.players[i].stateSequence == n.players[i].stateSequence
      && Located(n'.players[i], n.me, n.addr)
    ensures Peopled(n')
  {
  }

  lemma StatedPeopled(n: Net, i: nat)
    requires Peopled(n) && i < |n.players| && n.players[i].addrSet
    ensures Peopled(Stated(n, i))
  {
    hide Numbers, Fanout, Addresses;
    var n' := Stated(n, i);
    forall j | 0 <= j < |n'.players|
      ensures Located(n'.players[j], n.me, n.addr)
           && (n'.players[j].id == n.me ==> n'.players[j].stateSequence == n'.next)
    {
      assert Located(n.players[j], n.me, n.addr);
    }
  }

  lemma LeavePeopled(n: Net, id: nat)
    requires Peopled(n)
    ensures Peopled(n.(players := Without(n.players, id)))
  {
    WithoutKeeps(n.players, id, n.me);
    var rest := Without(n.players, id);
    forall j | 0 <= j < |rest|
      ensures Located(rest[j], n.me, n.addr) && (rest[j].id == n.me ==> rest[j].stateSequence == n.next)
    {
      assert rest[j] in n.players;
    }
  }

  lemma NextPeopled(n: Net, s: Step)
    requires Peopled(n) && Enabled(n, s)
    ensures Peopled(Next(n, s))
  {
    hide Stated, Offered, Sent, Delivered, Without, ValidRing;
    match s
    case SendState(i) => StatedPeopled(n, i);
    case Input(pkt) => SamePeople(n, Next(n, s));
    case Learn(id, at) => SamePeople(n, Next(n, s));
    case Leave(id) => LeavePeopled(n, id);
    case Offer => OfferKeeps(n);
    case Send => SendKeeps(n);
    case Deliver(now) => DeliverKeeps(n, now);
    case _ =>
  }

  // The steps of the channel leave the players alone.
  predicate SameGame(n: Net, n': Net) {
    n'.players == n.players && n'.me == n.me && n'.addr == n.addr && n'.next == n.next
  }

  lemma OfferKeeps(n: Net)
    requires ValidRing(n.ring) && n.backlog != []
    ensures SameGame(n, Offered(n))
  {
  }

  lemma SendKeeps(n: Net)
    requires ValidRing(n.ring) && n.ring.size > 0
    ensures SameGame(n, Sent(n))
  {
  }

  lemma DeliverKeeps(n: Net, now: nat)
    requires n.wire != [] && now < L.WORD
    ensures SameGame(n, Delivered(n, now))
  {
    hide L.Take;
  }

  // ---------- where the states are ----------

  // Received, on the wire, in the buffer and in the backlog.
  function Joined(received: seq<nat>, sent: seq<nat>, held: seq<nat>, waiting: seq<nat>): seq<nat> {
    received + sent + held + waiting
  }

  // The own states that can still be received or have been, oldest first.
  function Trail(n: Net): seq<nat>
    requires ValidRing(n.ring)
  {
    Joined(L.Sequences(n.arrivals), Numbers(n.me, n.addr, n.wire), Numbers(n.me, n.addr, Items(n.ring)),
           Numbers(n.me, n.addr, n.backlog))
  }

  // All own states queued so far are on the trail or lost, each once, and the trail is in order.
  ghost predicate Accounted(trail: seq<nat>, lost: seq<nat>, all: multiset<nat>) {
    Gaps.Increasing(trail) && multiset(trail) + multiset(lost) == all
  }

  ghost predicate Tracked(n: Net) {
    && ValidRing(n.ring)
    && n.lo <= n.next && n.queued == Gaps.Upwards(n.lo, n.next - n.lo)
    && Accounted(Trail(n), n.lost, multiset(n.queued))
  }

  ghost predicate Metered(n: Net) {
    L.Timely(n.arrivals) && n.meter == L.Measure(n.arrivals)
  }

  lemma Loses(x: seq<nat>, mid: seq<nat>, y: seq<nat>, lost: seq<nat>, all: multiset<nat>)
    requires Accounted(x + mid + y, lost, all)
    ensures Accounted(x + y, lost + mid, all)
  {
    var before, after := x + mid + y, x + y;
    forall i, j | 0 <= i < j < |after| ensures after[i] < after[j] {
      var i', j' := if i < |x| then i else i + |mid|, if j < |x| then j else j + |mid|;
      assert before[i'] == after[i] && before[j'] == after[j];
    }
  }

  lemma LosesWaiting(a: seq<nat>, w: seq<nat>, r: seq<nat>, t: seq<nat>, b: seq<nat>, lost: seq<nat>,
                     all: multiset<nat>)
    requires Accounted(Joined(a, w, r, t + b), lost, all)
    ensures Accounted(Joined(a, w, r, b), lost + t, all)
  {
    hide Accounted;
    assert Joined(a, w, r, t + b) == (a + w + r) + t + b;
    Loses(a + w + r, t, b, lost, all);
  }

  lemma LosesSent(a: seq<nat>, w: seq<nat>, t: seq<nat>, w': seq<nat>, r: seq<nat>, b: seq<nat>, lost: seq<nat>,
                  all: multiset<nat>)
    requires Accounted(Joined(a, w + t + w', r, b), lost, all)
    ensures Accounted(Joined(a, w + w', r, b), lost + t, all)
  {
    hide Accounted;
    assert Joined(a, w + t + w', r, b) == (a + w) + t + (w' + r + b);
    Loses(a + w, t, w' + r + b, lost, all);
    assert Joined(a, w + w', r, b) == (a + w) + (w' + r + b);
  }

  // A state moves on, and the trail stays as it is.
  lemma MovesOn(a: seq<nat>, w: seq<nat>, r: seq<nat>, b: seq<nat>, t: seq<nat>)
    ensures Joined(a, w, r + t, b) == Joined(a, w, r, t + b)
    ensures Joined(a, w + t, r, b) == Joined(a, w, t + r, b)
    ensures Joined(a + t, w, r, b) == Joined(a, t + w, r, b)
  {
  }

  lemma Gains(trail: seq<nat>, lost: seq<nat>, queued: seq<nat>, t: nat)
    requires Accounted(trail, lost, multiset(queued))
    requires forall u :: u in queued ==> u < t
    ensures Accounted(trail + [t], lost, multiset(queued + [t]))
  {
    forall i | 0 <= i < |trail| ensures trail[i] < t {
      var t' := trail[i];
      assert t' in trail && t' in multiset(trail);
      assert multiset(queued)[t'] == multiset(trail)[t'] + multiset(lost)[t'];
      assert t' in multiset(queued) && t' in queued;
    }
  }

  lemma UpwardsNext(lo: nat, n: nat)
    ensures Gaps.Upwards(lo, n + 1) == Gaps.Upwards(lo, n) + [lo + n]
    ensures forall u :: u in Gaps.Upwards(lo, n) ==> u < lo + n
  {
  }

  // The four stretches of the trail.
  ghost predicate Stretches(n: Net, a: seq<nat>, w: seq<nat>, r: seq<nat>, b: seq<nat>) {
    && ValidRing(n.ring) && n.lo <= n.next && n.queued == Gaps.Upwards(n.lo, n.next - n.lo)
    && a == L.Sequences(n.arrivals) && w == Numbers(n.me, n.addr, n.wire)
    && r == Numbers(n.me, n.addr, Items(n.ring)) && b == Numbers(n.me, n.addr, n.backlog)
  }

  lemma TrackedIff(n: Net, a: seq<nat>, w: seq<nat>, r: seq<nat>, b: seq<nat>)
    requires Stretches(n, a, w, r, b)
    ensures Tracked(n) <==> Accounted(Joined(a, w, r, b), n.lost, multiset(n.queued))
  {
    hide Accounted, Joined, Numbers, Items, ValidRing, L.Sequences;
  }

  lemma Stretch(n: Net) returns (a: seq<nat>, w: seq<nat>, r: seq<nat>, b: seq<nat>)
    requires Tracked(n)
    ensures Stretches(n, a, w, r, b) && Accounted(Joined(a, w, r, b), n.lost, multiset(n.queued))
  {
    hide Accounted, Joined, Numbers, Items, ValidRing, L.Sequences;
    a, w, r := L.Sequences(n.arrivals), Numbers(n.me, n.addr, n.wire), Numbers(n.me, n.addr, Items(n.ring));
    b := Numbers(n.me, n.addr, n.backlog);
    TrackedIff(n, a, w, r, b);
  }

  lemma SendStateTracked(n: Net, i: nat)
    requires Tracked(n) && ValidRing(n.ring) && Peopled(n) && n.backlog == [] && i < |n.players| && n.players[i].addrSet
    ensures Tracked(Stated(n, i))
  {
    hide Peopled, Numbers, Items, ValidRing, Accounted, Gaps.Upwards, Fanout, Joined, L.Sequences, Tracked;
    var n' := Stated(n, i);
    StateQueued(n, i);
    NumbersNone(n.me, n.addr);
    var a, w, r, b := Stretch(n);
    UpwardsNext(n.lo, n.next - n.lo);
    if n.players[i].id == n.me {
      JoinedEnd(a, w, r, n.next);
      Gains(Joined(a, w, r, []), n.lost, n.queued, n.next);
      TrackedIff(n', a, w, r, [n.next]);
    } else {
      assert n.queued + [] == n.queued;
      TrackedIff(n', a, w, r, []);
    }
  }

  lemma JoinedEnd(a: seq<nat>, w: seq<nat>, r: seq<nat>, t: nat)
    ensures Joined(a, w, r, [t]) == Joined(a, w, r, []) + [t]
  {
  }

  lemma OfferSplits(n: Net)
    requires n.backlog != []
    ensures Numbers(n.me, n.addr, n.backlog)
         == Numbers(n.me, n.addr, [n.backlog[0]]) + Numbers(n.me, n.addr, n.backlog[1..])
  {
    assert n.backlog == [n.backlog[0]] + n.backlog[1..];
    NumbersConcat(n.me, n.addr, [n.backlog[0]], n.backlog[1..]);
  }

  lemma RefusalTracked(n: Net)
    requires Tracked(n) && ValidRing(n.ring) && n.backlog != [] && n.ring.size == |n.ring.slots|
    ensures Tracked(Offered(n))
  {
    hide Numbers, Items, ValidRing, Accounted, Joined, L.Sequences, Lose, Tracked;
    OfferSplits(n);
    NumbersOne(n.(backlog := n.backlog[1..]), n.backlog[0]);
    var a, w, r, b := Stretch(n);
    var t, b' := Numbers(n.me, n.addr, [n.backlog[0]]), Numbers(n.me, n.addr, n.backlog[1..]);
    LosesWaiting(a, w, r, t, b', n.lost, multiset(n.queued));
    TrackedIff(Offered(n), a, w, r, b');
  }

  lemma AcceptSplits(n: Net)
    requires ValidRing(n.ring) && n.backlog != [] && n.ring.size != |n.ring.slots|
    ensures Offered(n) == n.(backlog := n.backlog[1..], ring := Pushed(n.ring, n.backlog[0]))
    ensures ValidRing(Pushed(n.ring, n.backlog[0]))
    ensures Numbers(n.me, n.addr, Items(Pushed(n.ring, n.backlog[0])))
         == Numbers(n.me, n.addr, Items(n.ring)) + Numbers(n.me, n.addr, [n.backlog[0]])
  {
    PushItems(n.ring, n.backlog[0]);
    NumbersConcat(n.me, n.addr, Items(n.ring), [n.backlog[0]]);
  }

  lemma AcceptTracked(n: Net)
    requires Tracked(n) && ValidRing(n.ring) && n.backlog != [] && n.ring.size != |n.ring.slots|
    ensures Tracked(Offered(n))
  {
    hide Numbers, Items, Pushed, ValidRing, Accounted, Joined, L.Sequences, Tracked, Offered;
    OfferSplits(n);
    AcceptSplits(n);
    var a, w, r, b := Stretch(n);
    var t, b' := Numbers(n.me, n.addr, [n.backlog[0]]), Numbers(n.me, n.addr, n.backlog[1..]);
    MovesOn(a, w, r, b', t);
    TrackedIff(Offered(n), a, w, r + t, b');
  }

  lemma OfferOtherTracked(n: Net, d: Datagram)
    requires Tracked(n) && ValidRing(n.ring) && !Own(n, d)
    ensures Tracked(n.(ring := Pushed(n.ring, d)))
  {
    hide Numbers, Items, Pushed, ValidRing, Accounted, Joined, L.Sequences, Tracked;
    NumbersOne(n, d);
    PushItems(n.ring, d);
    NumbersConcat(n.me, n.addr, Items(n.ring), [d]);
    var a, w, r, b := Stretch(n);
    assert r + [] == r;
    TrackedIff(n.(ring := Pushed(n.ring, d)), a, w, r, b);
  }

  lemma SendSplits(n: Net)
    requires ValidRing(n.ring) && n.ring.size > 0
    ensures ValidRing(Popped(n.ring)) && Front(n.ring).Some?
    ensures Numbers(n.me, n.addr, Items(n.ring))
         == Numbers(n.me, n.addr, [Front(n.ring).value]) + Numbers(n.me, n.addr, Items(Popped(n.ring)))
    ensures Numbers(n.me, n.addr, n.wire + [Front(n.ring).value])
         == Numbers(n.me, n.addr, n.wire) + Numbers(n.me, n.addr, [Front(n.ring).value])
  {
    PopItems(n.ring);
    var items := Items(n.ring);
    hide Numbers, Items, Popped, Front;
    assert items == [items[0]] + items[1..];
    NumbersConcat(n.me, n.addr, [items[0]], items[1..]);
    NumbersConcat(n.me, n.addr, n.wire, [items[0]]);
  }

  lemma SendTracked(n: Net)
    requires Tracked(n) && ValidRing(n.ring) && n.ring.size > 0
    ensures Tracked(Sent(n))
  {
    hide Numbers, Items, Popped, Front, ValidRing, Accounted, Joined, L.Sequences, Tracked;
    SendSplits(n);
    var a, w, r, b := Stretch(n);
    var t, r' := Numbers(n.me, n.addr, [Front(n.ring).value]), Numbers(n.me, n.addr, Items(Popped(n.ring)));
    MovesOn(a, w, r', b, t);
    TrackedIff(Sent(n), a, w + t, r', b);
  }

  lemma DropTracked(n: Net, i: nat)
    requires Tracked(n) && ValidRing(n.ring) && i < |n.wire|
    ensures Tracked(Lose(n.(wire := n.wire[..i] + n.wire[i + 1..]), n.wire[i]))
  {
    hide Numbers, Items, ValidRing, Accounted, Joined, L.Sequences, Lose, Tracked;
    var x, d, y := n.wire[..i], n.wire[i], n.wire[i + 1..];
    assert n.wire == (x + [d]) + y;
    NumbersConcat(n.me, n.addr, x + [d], y);
    NumbersConcat(n.me, n.addr, x, [d]);
    NumbersConcat(n.me, n.addr, x, y);
    NumbersOne(n.(wire := x + y), d);
    var a, w, r, b := Stretch(n);
    var before, t, after := Numbers(n.me, n.addr, x), Numbers(n.me, n.addr, [d]), Numbers(n.me, n.addr, y);
    LosesSent(a, before, t, after, r, b, n.lost, multiset(n.queued));
    TrackedIff(Lose(n.(wire := x + y), d), a, before + after, r, b);
  }

  lemma SequencesGrow(arrivals: seq<L.Arrival>, a: L.Arrival)
    ensures L.Sequences(arrivals + [a]) == L.Sequences(arrivals) + [a.sequence]
  {
  }

  lemma DeliverSplits(n: Net, now: nat)
    requires n.wire != [] && now < L.WORD
    ensures Delivered(n, now).wire == n.wire[1..]
    ensures L.Sequences(Delivered(n, now).arrivals)
         == L.Sequences(n.arrivals) + Numbers(n.me, n.addr, [n.wire[0]])
    ensures Numbers(n.me, n.addr, n.wire)
         == Numbers(n.me, n.addr, [n.wire[0]]) + Numbers(n.me, n.addr, n.wire[1..])
    ensures var n' := Delivered(n, now);
      n' == n.(wire := n'.wire, meter := n'.meter, arrivals := n'.arrivals)
  {
    hide L.Take;
    var d := n.wire[0];
    assert n.wire == [d] + n.wire[1..];
    NumbersConcat(n.me, n.addr, [d], n.wire[1..]);
    NumbersOne(n, d);
    if Own(n, d) {
      SequencesGrow(n.arrivals, L.Arrival(d.packet.sequence, now));
    } else {
      assert L.Sequences(n.arrivals) + [] == L.Sequences(n.arrivals);
    }
  }

  lemma DeliverTracked(n: Net, now: nat)
    requires Tracked(n) && ValidRing(n.ring) && n.wire != [] && now < L.WORD
    ensures Tracked(Delivered(n, now))
  {
    hide Numbers, Items, ValidRing, Accounted, Joined, L.Sequences, Tracked, Delivered;
    DeliverSplits(n, now);
    var a, w, r, b := Stretch(n);
    var t, w' := Numbers(n.me, n.addr, [n.wire[0]]), Numbers(n.me, n.addr, n.wire[1..]);
    MovesOn(a, w', r, b, t);
    TrackedIff(Delivered(n, now), a + t, w', r, b);
  }

  lemma NextTracked(n: Net, s: Step)
    requires Tracked(n) && Peopled(n) && Enabled(n, s)
    ensures Tracked(Next(n, s))
  {
    hide Stated, Offered, Sent, Delivered, Lose, Numbers, Items, Accounted, Joined, Pushed;
    match s
    case SendState(i) => SendStateTracked(n, i);
    case Offer => if n.ring.size == |n.ring.slots| { RefusalTracked(n); } else { AcceptTracked(n); }
    case OfferOther(d) => OfferOtherTracked(n, d);
    case Send => SendTracked(n);
    case Drop(i) => DropTracked(n, i);
    case Deliver(now) => DeliverTracked(n, now);
    case _ =>
  }

  lemma DeliveredMetered(n: Net, now: nat)
    requires Metered(n) && n.wire != [] && LastArrival(n.arrivals) <= now < L.WORD
    ensures Metered(Delivered(n, now))
  {
    hide L.Take, L.EventsFor;
    var n' := Delivered(n, now);
    if Own(n, n.wire[0]) {
      assert n'.arrivals[..|n.arrivals|] == n.arrivals;
    }
  }

  lemma NextMetered(n: Net, s: Step)
    requires Metered(n) && Enabled(n, s)
    ensures Metered(Next(n, s))
  {
    hide Delivered, ValidRing, Popped, Pushed, Without, Addressed, AfterInput, L.Measure, L.Timely, Numbers;
    match s
    case Deliver(now) => DeliveredMetered(n, now);
    case _ =>
  }

  // ---------- runs ----------

  ghost predicate Run(states: seq<Net>, steps: seq<Step>) {
    && |states| == |steps| + 1
    && forall i :: 0 <= i < |steps| ==> Enabled(states[i], steps[i]) && states[i + 1] == Next(states[i], steps[i])
  }

  // A player that is in the game once, whose next state has number `lo`, and nothing under way. Other
  // players may or may not be there, with other addresses; the buffer has 1024 slots and is empty.
  ghost predicate Initial(n: Net) {
    && Peopled(n) && n.next == n.lo
    && |n.ring.slots| == CAPACITY && ValidRing(n.ring) && n.ring.size == 0
    && n.backlog == [] && n.wire == [] && n.queued == [] && n.lost == [] && n.arrivals == []
    && n.meter == L.NEW_METER
  }

  lemma InitialTracked(n: Net)
    requires Initial(n)
    ensures Tracked(n) && Metered(n)
  {
    NumbersNone(n.me, n.addr);
  }

  lemma NextKeeps(n: Net, s: Step)
    requires Enabled(n, s)
    ensures Next(n, s).lo == n.lo && Next(n, s).me == n.me && Next(n, s).addr == n.addr
  {
  }

  lemma {:induction false} RunTracked(states: seq<Net>, steps: seq<Step>, k: nat)
    requires Run(states, steps) && Initial(states[0]) && k <= |steps|
    ensures Tracked(states[k]) && Peopled(states[k]) && Metered(states[k])
    ensures states[k].lo == states[0].lo
  {
    hide Tracked, Peopled, Metered, Enabled, Next;
    if k > 0 {
      RunTracked(states, steps, k - 1);
      NextTracked(states[k - 1], steps[k - 1]);
      NextPeopled(states[k - 1], steps[k - 1]);
      NextMetered(states[k - 1], steps[k - 1]);
      NextKeeps(states[k - 1], steps[k - 1]);
    } else {
      InitialTracked(states[0]);
      assert Peopled(states[0]) by { InitialPeopled(states[0]); }
    }
  }

  lemma InitialPeopled(n: Net)
    requires Initial(n)
    ensures Peopled(n)
  {
  }

  /** Over any run, whatever happens to the players in between, the states of a player are queued for its
      client with consecutive numbers, so that a gap in the numbers received means packets lost. */
  lemma StatesNumbered(states: seq<Net>, steps: seq<Step>, k: nat)
    requires Run(states, steps) && Initial(states[0]) && k <= |steps|
    ensures states[k].queued == Gaps.Upwards(states[0].lo, |states[k].queued|)
  {
    RunTracked(states, steps, k);
  }

  // How many of the numbers lie strictly between two.
  function Between(ts: seq<nat>, a: nat, b: nat): nat {
    if |ts| == 0 then 0
    else Between(ts[..|ts| - 1], a, b) + if a < ts[|ts| - 1] < b then 1 else 0
  }

  ghost function Inside(ts: seq<nat>, a: nat, b: nat): set<nat> {
    set t | t in ts && a < t < b
  }

  lemma {:induction false} InsideSize(ts: seq<nat>, a: nat, b: nat)
    requires Distinct(ts)
    ensures |Inside(ts, a, b)| == Between(ts, a, b)
  {
    if |ts| > 0 {
      var init, t := ts[..|ts| - 1], ts[|ts| - 1];
      InsideSize(init, a, b);
      assert ts == init + [t];
      assert t !in init;
      assert Inside(ts, a, b) == Inside(init, a, b) + if a < t < b then {t} else {};
    }
  }

  lemma {:induction false} MultisetOfUpwards(lo: nat, n: nat, t: nat)
    ensures multiset(Gaps.Upwards(lo, n))[t] == if lo <= t < lo + n then 1 else 0
  {
    if n == 0 {
      assert Gaps.Upwards(lo, 0) == [];
    } else {
      MultisetOfUpwards(lo, n - 1, t);
      UpwardsNext(lo, n - 1);
    }
  }

  // Each number is on the trail or lost, and not both.
  lemma Shared(trail: seq<nat>, lost: seq<nat>, lo: nat, n: nat)
    requires Accounted(trail, lost, multiset(Gaps.Upwards(lo, n)))
    ensures forall t :: t in trail || t in lost <==> lo <= t < lo + n
    ensures forall t :: t in trail ==> t !in lost
    ensures Distinct(lost)
  {
    forall t: nat ensures multiset(trail)[t] + multiset(lost)[t] == if lo <= t < lo + n then 1 else 0 {
      MultisetOfUpwards(lo, n, t);
      assert (multiset(trail) + multiset(lost))[t] == multiset(trail)[t] + multiset(lost)[t];
    }
    forall t: nat
      ensures t in trail || t in lost <==> lo <= t < lo + n
      ensures t in trail ==> t !in lost
    {
      assert t in trail <==> multiset(trail)[t] > 0;
      assert t in lost <==> multiset(lost)[t] > 0;
    }
    DistinctFromMultiset(lost);
  }

  // What comes before something in an increasing sequence is below all that comes after it.
  lemma PrefixBelow(received: seq<nat>, rest: seq<nat>, t: nat)
    requires Gaps.Increasing(received + rest) && |received| > 0 && t in received + rest && t !in received
    ensures t > received[|received| - 1]
  {
    var trail := received + rest;
    var i :| 0 <= i < |trail| && trail[i] == t;
    assert trail[|received| - 1] == received[|received| - 1];
  }

  lemma PrefixInOrder(received: seq<nat>, rest: seq<nat>)
    requires Gaps.Increasing(received + rest)
    ensures Gaps.Increasing(received)
  {
    var trail := received + rest;
    assert forall i :: 0 <= i < |received| ==> trail[i] == received[i];
  }

  lemma PrefixOfTrail(received: seq<nat>, rest: seq<nat>, lost: seq<nat>, lo: nat, n: nat)
    requires Accounted(received + rest, lost, multiset(Gaps.Upwards(lo, n))) && |received| > 0
    ensures Gaps.Subsequence(received, lo, n)
    ensures |Gaps.Dropped(received, lo, n)| == Between(lost, received[0], received[|received| - 1])
  {
    var trail := received + rest;
    Shared(trail, lost, lo, n);
    PrefixInOrder(received, rest);
    assert forall t :: t in received ==> t in trail;
    var a, b := received[0], received[|received| - 1];
    forall t: nat | lo <= t < lo + n && a < t < b ensures t in lost <==> t !in received {
      if t in trail && t !in received { PrefixBelow(received, rest, t); }
    }
    assert Gaps.Dropped(received, lo, n) == Inside(lost, a, b);
    InsideSize(lost, a, b);
  }

  /** From the server's counter to the client's meter: over any run, the LOST events the client has ever
      recorded are exactly the own states that the full outgoing buffer refused or the network dropped
      between the first and the last one received. */
  lemma LossesEndToEnd(states: seq<Net>, steps: seq<Step>, k: nat)
    requires Run(states, steps) && Initial(states[0]) && k <= |steps| && states[k].arrivals != []
    ensures L.Timely(states[k].arrivals) && states[k].meter == L.Measure(states[k].arrivals)
    ensures var n := states[k];
      L.CountLost(L.History(n.arrivals))
      == Between(n.lost, n.arrivals[0].sequence, n.arrivals[|n.arrivals| - 1].sequence)
  {
    RunTracked(states, steps, k);
    LossesOf(states[k]);
  }

  lemma TrailBegins(n: Net) returns (rest: seq<nat>)
    requires ValidRing(n.ring)
    ensures Trail(n) == L.Sequences(n.arrivals) + rest
  {
    hide Numbers, Items, L.Sequences;
    rest := Numbers(n.me, n.addr, n.wire) + Numbers(n.me, n.addr, Items(n.ring)) + Numbers(n.me, n.addr, n.backlog);
  }

  lemma SequencesEnds(arrivals: seq<L.Arrival>)
    requires arrivals != []
    ensures |L.Sequences(arrivals)| == |arrivals| && L.Sequences(arrivals)[0] == arrivals[0].sequence
    ensures L.Sequences(arrivals)[|arrivals| - 1] == arrivals[|arrivals| - 1].sequence
  {
  }

  lemma TrackedTrail(n: Net)
    requires Tracked(n)
    ensures ValidRing(n.ring) && n.lo <= n.next
    ensures Accounted(Trail(n), n.lost, multiset(Gaps.Upwards(n.lo, n.next - n.lo)))
  {
    hide ValidRing, Accounted, Trail;
  }

  lemma LossesOf(n: Net)
    requires Tracked(n) && Metered(n) && n.arrivals != []
    ensures L.CountLost(L.History(n.arrivals))
         == Between(n.lost, n.arrivals[0].sequence, n.arrivals[|n.arrivals| - 1].sequence)
  {
    hide Tracked, ValidRing, Accounted, Trail, L.Sequences, L.CountLost, L.History, L.Measure, L.Timely, Between;
    hide Gaps.Dropped, Gaps.Upwards;
    TrackedTrail(n);
    var rest := TrailBegins(n);
    var received := L.Sequences(n.arrivals);
    SequencesEnds(n.arrivals);
    PrefixOfTrail(received, rest, n.lost, n.lo, n.next - n.lo);
    L.LossesAreDropped(n.arrivals, n.lo, n.next - n.lo);
  }
}
