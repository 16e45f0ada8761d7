/** A predicting client and its server. Inputs and snapshots are lost, repeated and reordered by the
    network. The server's handler raises the acknowledged tick under the player mutex and then moves the
    player without it, flag by flag; a broadcast holds the mutex, but reads first x and then y of a player
    that may be moving. */
module PlayerSync {
  import opened Basics
  import opened Protocol
  import opened Prediction

  // What the server keeps of the player: the highest tick it has handled, and the position.
  datatype Server = Server(ack: nat, at: Point)

  // An input handled as a whole.
  function Handle(s: Server, p: InputPacket): Server {
    Server(if p.tick > s.ack then p.tick else s.ack, Plus(s.at, Shift(p.inputs)))
  }

  function HandleAll(s: Server, taken: seq<InputPacket>): Server {
    if taken == [] then s else Handle(HandleAll(s, taken[..|taken| - 1]), taken[|taken| - 1])
  }

  const NOWHERE := Point(0, 0.0)

  // The displacement that the first j of the four flag tests make, and what is left of it then.
  function Part(i: Inputs, j: nat): Point {
    Point((if j >= 4 && i.right then 5 else 0) - (if j >= 3 && i.left then 5 else 0),
          (if j >= 2 && i.down then 5.0 else 0.0) - (if j >= 1 && i.up then 5.0 else 0.0))
  }

  function Rest(i: Inputs, j: nat): Point {
    Point(Shift(i).x - Part(i, j).x, Shift(i).y - Part(i, j).y)
  }

  // A broadcast that has read the acknowledgement and x, with the inputs taken by then; `owedX` is what x
  // still lacked of these.
  datatype Reading = Reading(taken: seq<InputPacket>, ack: nat, x: int, owedX: int)

  // A snapshot sent, with the inputs taken when it was read and what it lacks of them.
  datatype Sent = Sent(taken: seq<InputPacket>, ack: nat, at: Point, owed: Point)

  // `taken` are the inputs the handler has begun with, as they arrived; if stage is not 0, stage - 1 of the
  // flags of the last one have been tested. `last` and `owed` are those of the last snapshot received.
  datatype System = System(
    t0: nat, me: nat, start: Point, events: seq<Event>,
    taken: seq<InputPacket>, stage: nat, server: Server, reading: Option<Reading>, sent: seq<Sent>,
    last: seq<InputPacket>, owed: Point)

  // Any input issued may arrive at any time, and so may any snapshot sent.
  datatype Action = Key(inputs: Inputs) | Raise(i: nat) | Flag | ReadX | ReadY | Receive(i: nat)

  function AllIssued(s: System): seq<InputPacket> {
    Issued(s.t0, s.me, s.events)
  }

  function Client(s: System): Predictor {
    Live(s.t0, s.me, s.events)
  }

  function Init(t0: nat, me: nat, start: Point): System {
    System(t0, me, start, [], [], 0, Server(0, start), None, [], [], NOWHERE)
  }

  // Raising the acknowledgement takes the mutex that a broadcast holds; moving the player does not.
  predicate Can(s: System, a: Action) {
    match a
    case Key(_) => true
    case Raise(i) => s.stage == 0 && i < |AllIssued(s)| && s.reading.None?
    case Flag => s.stage > 0 && s.taken != []
    case ReadX => s.reading.None?
    case ReadY => s.reading.Some?
    case Receive(i) => i < |s.sent|
  }

  // What the position lacks of the inputs taken.
  function Owed(s: System): Point {
    if s.stage == 0 || s.taken == [] then NOWHERE else Rest(s.taken[|s.taken| - 1].inputs, s.stage - 1)
  }

  // One flag test; the displacement it makes is the difference of two parts.
  function Moved(at: Point, i: Inputs, j: nat): Point
    requires j < 4
  {
    match j
    case 0 => if i.up then at.(y := at.y - 5.0) else at
    case 1 => if i.down then at.(y := at.y + 5.0) else at
    case 2 => if i.left then at.(x := at.x - 5) else at
    case _ => if i.right then at.(x := at.x + 5) else at
  }

  function Do(s: System, a: Action): System
    requires Can(s, a) && s.stage <= 4
  {
    match a
    case Key(inputs) => s.(events := s.events + [Press(inputs)])
    case Raise(i) =>
      var p := AllIssued(s)[i];
      s.(taken := s.taken + [p], stage := 1,
         server := s.server.(ack := if p.tick > s.server.ack then p.tick else s.server.ack))
    case Flag =>
      var at := Moved(s.server.at, s.taken[|s.taken| - 1].inputs, s.stage - 1);
      s.(stage := if s.stage < 4 then s.stage + 1 else 0, server := s.server.(at := at))
    case ReadX => s.(reading := Some(Reading(s.taken, s.server.ack, s.server.at.x, Owed(s).x)))
    case ReadY =>
      var r := s.reading.value;
      s.(reading := None,
         sent := s.sent + [Sent(r.taken, r.ack, Point(r.x, s.server.at.y), Point(r.owedX, Owed(s).y))])
    case Receive(i) =>
      var m := s.sent[i];
      s.(events := s.events + [Snapshot(m.ack, m.at)], last := m.taken, owed := m.owed)
  }

  // ---------- invariants ----------

  // The highest tick taken, 0 if there is none: the server acknowledges it.
  function Top(taken: seq<InputPacket>): nat {
    if taken == [] then 0
    else
      var before, tick := Top(taken[..|taken| - 1]), taken[|taken| - 1].tick;
      if tick > before then tick else before
  }

  // Where these inputs take the player.
  function Goal(start: Point, taken: seq<InputPacket>): Point {
    Plus(start, Displacement(taken))
  }

  // A snapshot acknowledges the inputs taken, and says what it lacks of them.
  predicate Honest(start: Point, m: Sent) {
    m.ack == Top(m.taken) && Plus(m.at, m.owed) == Goal(start, m.taken) && (m.taken == [] ==> m.owed == NOWHERE)
  }

  ghost predicate AreIssued(s: System, taken: seq<InputPacket>) {
    forall p :: p in taken ==> p in AllIssued(s)
  }

  ghost predicate ServerSide(s: System) {
    && s.stage <= 4 && (s.stage > 0 ==> s.taken != [])
    && AreIssued(s, s.taken)
    && s.server.ack == Top(s.taken)
    && Plus(s.server.at, Owed(s)) == Goal(s.start, s.taken)
    && (forall m :: m in s.sent ==> m.taken <= s.taken && Honest(s.start, m))
  }

  ghost predicate Reads(s: System) {
    s.reading.Some? ==>
      var r := s.reading.value;
      && r.taken == s.taken && r.ack == s.server.ack
      && r.x + r.owedX == Goal(s.start, r.taken).x
      && (r.taken == [] ==> r.owedX == 0)
  }

  ghost predicate ClientSide(s: System) {
    && Genuine(s.t0, s.me, s.events)
    && s.last <= s.taken && Top(s.last) <= Greatest(s.events)
    && (s.last != [] ==> PressedBefore(s.t0, s.me, s.events) > 0)
    && (LastSnapshot(s.events).Some? ==>
          LastSnapshot(s.events).value.Snapshot?
          && Honest(s.start, Sent(s.last, LastSnapshot(s.events).value.ack, LastSnapshot(s.events).value.at, s.owed)))
  }

  ghost predicate Coherent(s: System) {
    ServerSide(s) && Reads(s) && ClientSide(s)
  }

  // ---------- steps ----------

  lemma PartsAdd(at: Point, i: Inputs, j: nat)
    requires j < 4
    ensures Plus(Moved(at, i, j), Rest(i, j + 1)) == Plus(at, Rest(i, j))
    ensures Rest(i, 0) == Shift(i) && Rest(i, 4) == NOWHERE
    ensures j >= 2 ==> Moved(at, i, j).y == at.y && Rest(i, j).y == 0.0
  {
  }

  lemma ZeroAfter(p: Point)
    ensures Plus(p, NOWHERE) == p
  {
  }

  lemma GoalNext(start: Point, taken: seq<InputPacket>, p: InputPacket)
    ensures Goal(start, taken + [p]) == Plus(Goal(start, taken), Shift(p.inputs))
  {
    PressMoves(start, taken, p);
  }

  lemma TopNext(taken: seq<InputPacket>, p: InputPacket)
    ensures Top(taken + [p]) == if p.tick > Top(taken) then p.tick else Top(taken)
  {
    assert (taken + [p])[..|taken|] == taken;
  }

  lemma {:induction false} TopReached(taken: seq<InputPacket>)
    ensures Top(taken) == 0 || exists p :: p in taken && p.tick == Top(taken)
    ensures forall p :: p in taken ==> p.tick <= Top(taken)
  {
    if taken != [] {
      var init, last := taken[..|taken| - 1], taken[|taken| - 1];
      assert taken == init + [last];
      TopReached(init);
    }
  }

  lemma TopIssued(s: System, taken: seq<InputPacket>)
    requires AreIssued(s, taken)
    ensures Top(taken) == 0 || Top(taken) < s.t0 + |AllIssued(s)|
    ensures taken != [] ==> |AllIssued(s)| > 0
  {
    hide AllIssued, Top;
    TopReached(taken);
    assert forall i :: 0 <= i < |AllIssued(s)| ==> AllIssued(s)[i].tick == s.t0 + i by { TicksIssued(s); }
    if taken != [] { assert taken[0] in AllIssued(s); }
  }

  lemma TicksIssued(s: System)
    ensures forall i :: 0 <= i < |AllIssued(s)| ==> AllIssued(s)[i].tick == s.t0 + i
    ensures Distinct(AllIssued(s))
  {
    IssuedTicks(s.t0, s.me, s.events);
  }

  lemma KeyIssues(s: System, inputs: Inputs)
    ensures var s' := s.(events := s.events + [Press(inputs)]);
      && AllIssued(s) <= AllIssued(s')
      && PressedBefore(s.t0, s.me, s'.events) == PressedBefore(s.t0, s.me, s.events)
      && Greatest(s'.events) == Greatest(s.events)
      && LastSnapshot(s'.events) == LastSnapshot(s.events)
      && (Genuine(s.t0, s.me, s.events) ==> Genuine(s.t0, s.me, s'.events))
  {
    var events := s.events + [Press(inputs)];
    assert events[..|s.events|] == s.events;
  }

  lemma KeyCoherent(s: System, inputs: Inputs)
    requires Coherent(s)
    ensures Coherent(Do(s, Key(inputs)))
  {
    hide AllIssued, Top, Goal, Honest, Genuine, PressedBefore, Greatest, LastSnapshot;
    KeyIssues(s, inputs);
  }

  lemma RaiseServes(s: System, i: nat)
    requires ServerSide(s) && Can(s, Raise(i))
    ensures ServerSide(Do(s, Raise(i)))
  {
    hide Top, Goal, Rest, Shift, Plus, Honest;
    var s', p := Do(s, Raise(i)), AllIssued(s)[i];
    assert AllIssued(s') == AllIssued(s);
    hide AllIssued;
    TopNext(s.taken, p);
    GoalNext(s.start, s.taken, p);
    PartsAdd(s.server.at, p.inputs, 0);
    ZeroAfter(s.server.at);
  }

  lemma RaiseCoherent(s: System, i: nat)
    requires Coherent(s) && Can(s, Raise(i))
    ensures Coherent(Do(s, Raise(i)))
  {
    hide ServerSide, Top, Goal, Honest, Genuine, PressedBefore, Greatest, LastSnapshot;
    RaiseServes(s, i);
  }

  lemma FlagServes(s: System)
    requires ServerSide(s) && Can(s, Flag)
    ensures ServerSide(Do(s, Flag))
  {
    hide Top, Goal, Honest;
    PartsAdd(s.server.at, s.taken[|s.taken| - 1].inputs, s.stage - 1);
    assert AllIssued(Do(s, Flag)) == AllIssued(s);
  }

  lemma FlagCoherent(s: System)
    requires Coherent(s) && Can(s, Flag)
    ensures Coherent(Do(s, Flag))
  {
    hide Top, Goal, Honest, Genuine, PressedBefore, Greatest, LastSnapshot;
    FlagServes(s);
  }

  lemma ReadXCoherent(s: System)
    requires Coherent(s) && Can(s, ReadX)
    ensures Coherent(Do(s, ReadX))
  {
    hide Top, Goal, Rest, Honest, Genuine, PressedBefore, Greatest, LastSnapshot;
    assert AllIssued(Do(s, ReadX)) == AllIssued(s);
  }

  lemma ReadYCoherent(s: System)
    requires Coherent(s) && Can(s, ReadY)
    ensures Coherent(Do(s, ReadY))
  {
    hide Top, Goal, Rest, Genuine, PressedBefore, Greatest, LastSnapshot;
    var s' := Do(s, ReadY);
    assert AllIssued(s') == AllIssued(s);
    var m := s'.sent[|s.sent|];
    assert Honest(s.start, m);
  }

  lemma ReceiveSees(s: System, i: nat)
    requires Can(s, Receive(i)) && s.stage <= 4
    ensures var s', m := Do(s, Receive(i)), s.sent[i];
      && AllIssued(s') == AllIssued(s)
      && PressedBefore(s.t0, s.me, s'.events) == |AllIssued(s)|
      && LastSnapshot(s'.events) == Some(Snapshot(m.ack, m.at))
      && Greatest(s'.events) == Greater(m.ack, Greatest(s.events))
      && (m.ack == 0 || m.ack < s.t0 + |AllIssued(s)| ==>
            Genuine(s.t0, s.me, s.events) ==> Genuine(s.t0, s.me, s'.events))
  {
    var s' := Do(s, Receive(i));
    assert s'.events[..|s.events|] == s.events;
  }

  lemma ReceiveCoherent(s: System, i: nat)
    requires Coherent(s) && Can(s, Receive(i))
    ensures Coherent(Do(s, Receive(i)))
  {
    hide AllIssued, Top, Goal, Genuine, PressedBefore, Greatest, LastSnapshot, Rest;
    var m := s.sent[i];
    assert m in s.sent;
    assert forall p :: p in m.taken ==> p in s.taken;
    ReceiveSees(s, i);
    TopIssued(s, m.taken);
  }

  lemma DoCoherent(s: System, a: Action)
    requires Coherent(s) && Can(s, a)
    ensures Coherent(Do(s, a))
  {
    hide Coherent, Can, Do;
    assert s.stage <= 4 by { StageBound(s); }
    match a
    case Key(inputs) => KeyCoherent(s, inputs);
    case Raise(i) => RaiseCoherent(s, i);
    case Flag => FlagCoherent(s);
    case ReadX => ReadXCoherent(s);
    case ReadY => ReadYCoherent(s);
    case Receive(i) => ReceiveCoherent(s, i);
  }

  lemma StageBound(s: System)
    requires Coherent(s)
    ensures s.stage <= 4
  {
  }

  lemma InitCoherent(t0: nat, me: nat, start: Point)
    ensures Coherent(Init(t0, me, start))
  {
    DisplacementNone();
    ZeroAfter(start);
  }

  lemma HandleAllNext(s: Server, taken: seq<InputPacket>, p: InputPacket)
    ensures HandleAll(s, taken + [p]) == Handle(HandleAll(s, taken), p)
  {
    assert (taken + [p])[..|taken|] == taken;
  }

  /** Whatever arrives, the server has then handled the highest tick and moved by each input. */
  lemma {:induction false} HandledAll(start: Point, taken: seq<InputPacket>)
    ensures HandleAll(Server(0, start), taken) == Server(Top(taken), Plus(start, Displacement(taken)))
  {
    if taken == [] {
      DisplacementNone();
      ZeroAfter(start);
    } else {
      hide Displacement;
      var init, last := taken[..|taken| - 1], taken[|taken| - 1];
      HandledAll(start, init);
      assert taken == init + [last];
      GoalNext(start, init, last);
    }
  }

  /** When the handler is between two inputs, the server is where handling each input that has arrived as
      a whole takes it, whatever has been read in between. */
  lemma HandlerCompletes(s: System)
    requires Coherent(s) && s.stage == 0
    ensures s.server == HandleAll(Server(0, s.start), s.taken)
  {
    HandledAll(s.start, s.taken);
    ZeroAfter(s.server.at);
  }

  // ---------- runs ----------

  // A run: each action can be done in the state it is taken from.
  ghost predicate Run(states: seq<System>, actions: seq<Action>) {
    && |states| == |actions| + 1
    && forall i :: 0 <= i < |actions| ==>
         && states[i].stage <= 4 && Can(states[i], actions[i])
         && states[i + 1] == Do(states[i], actions[i])
  }

  // A run that starts when the client has issued nothing and the server has handled nothing.
  ghost predicate Play(t0: nat, me: nat, start: Point, states: seq<System>, actions: seq<Action>) {
    Run(states, actions) && states[0] == Init(t0, me, start)
  }

  lemma DoKeeps(s: System, a: Action)
    requires s.stage <= 4 && Can(s, a)
    ensures Do(s, a).start == s.start && Do(s, a).t0 == s.t0 && Do(s, a).me == s.me
  {
  }

  lemma {:induction false} PlayCoherent(
      t0: nat, me: nat, start: Point, states: seq<System>, actions: seq<Action>, k: nat)
    requires Play(t0, me, start, states, actions) && k <= |actions|
    ensures Coherent(states[k])
    ensures states[k].start == start && states[k].t0 == t0 && states[k].me == me
  {
    hide Coherent, Can, Do;
    if k > 0 {
      PlayCoherent(t0, me, start, states, actions, k - 1);
      DoCoherent(states[k - 1], actions[k - 1]);
      DoKeeps(states[k - 1], actions[k - 1]);
    } else {
      InitCoherent(t0, me, start);
    }
  }

  // Where the player would be if every input ever issued had been handled once.
  function Ideal(s: System): Point {
    Plus(s.start, Displacement(AllIssued(s)))
  }

  // How many inputs the client no longer replays: those up to the greatest acknowledgement, and the first
  // one too if its tick is 0 and any snapshot has come since.
  function Forgotten(s: System): nat {
    var g := Threshold(s.t0, s.me, s.events);
    if g < s.t0 then 0 else g - s.t0 + 1
  }

  lemma ForgottenIssued(s: System)
    requires Coherent(s)
    ensures Forgotten(s) <= |AllIssued(s)|
    ensures Threshold(s.t0, s.me, s.events) < s.t0 + Forgotten(s)
  {
    ThresholdIssued(s.t0, s.me, s.events);
  }

  // One more input above the threshold.
  lemma AboveMore(kept: seq<InputPacket>, init: seq<InputPacket>, last: InputPacket, g: int)
    requires last.tick > g && Displacement(Above(init, g)) == Displacement(kept)
    ensures Displacement(Above(init + [last], g)) == Displacement(kept + [last])
  {
    AboveNext(init, last, g);
    hide Above, Displacement;
    DisplacementNext(kept, last);
    DisplacementNext(Above(init, g), last);
    PlusNothing(Displacement(kept));
  }

  // Inputs with ticks t0, t0 + 1, ...: those above a threshold are all but the first k.
  lemma {:induction false} AboveAck(inputs: seq<InputPacket>, t0: nat, k: nat, g: int)
    requires k <= |inputs| && g < t0 + k && (k > 0 ==> g == t0 + k - 1)
    requires forall i :: 0 <= i < |inputs| ==> inputs[i].tick == t0 + i
    ensures Displacement(Above(inputs, g)) == Displacement(inputs[k..])
  {
    hide Above, Displacement;
    if k == |inputs| {
      NoneAbove(inputs, g);
      assert inputs[k..] == [];
    } else {
      var init, last := inputs[..|inputs| - 1], inputs[|inputs| - 1];
      AboveAck(init, t0, k, g);
      AboveMore(init[k..], init, last, g);
      assert inputs == init + [last] && inputs[k..] == init[k..] + [last];
    }
  }

  lemma PlusNothing(p: Point)
    ensures Plus(p, Shift(NO_INPUTS)) == p
  {
  }

  lemma {:induction false} NoneAbove(inputs: seq<InputPacket>, g: int)
    requires forall i :: 0 <= i < |inputs| ==> inputs[i].tick <= g
    ensures Above(inputs, g) == []
  {
    if |inputs| > 0 { NoneAbove(inputs[..|inputs| - 1], g); }
  }

  lemma CoherentPosition(s: System)
    requires Coherent(s) && Client(s).pos.Some?
    ensures Forgotten(s) <= |AllIssued(s)|
    ensures LastSnapshot(s.events).Some? && LastSnapshot(s.events).value.Snapshot?
    ensures Honest(s.start, Sent(s.last, LastSnapshot(s.events).value.ack, LastSnapshot(s.events).value.at, s.owed))
    ensures Client(s).pos.value
         == Plus(LastSnapshot(s.events).value.at, Displacement(AllIssued(s)[Forgotten(s)..]))
  {
    hide Genuine, Above, Displacement, Goal;
    ForgottenIssued(s);
    ReconciledOnAnyNetwork(s.t0, s.me, s.events);
    IssuedTicks(s.t0, s.me, s.events);
    AboveAck(AllIssued(s), s.t0, Forgotten(s), Threshold(s.t0, s.me, s.events));
  }

  // ---------- lost and repeated inputs ----------

  // Those of the inputs that have not been taken.
  function Lacked(inputs: seq<InputPacket>, taken: seq<InputPacket>): seq<InputPacket> {
    if inputs == [] then []
    else
      var rest, last := Lacked(inputs[..|inputs| - 1], taken), inputs[|inputs| - 1];
      if last in taken then rest else rest + [last]
  }

  // The inputs taken again.
  function Repeated(taken: seq<InputPacket>): seq<InputPacket> {
    if taken == [] then []
    else
      var init, last := taken[..|taken| - 1], taken[|taken| - 1];
      var rest := Repeated(init);
      if last in init then rest + [last] else rest
  }

  lemma LackedNext(inputs: seq<InputPacket>, p: InputPacket, taken: seq<InputPacket>)
    ensures Lacked(inputs + [p], taken)
         == if p in taken then Lacked(inputs, taken) else Lacked(inputs, taken) + [p]
  {
    assert (inputs + [p])[..|inputs|] == inputs;
  }

  lemma RepeatedNext(taken: seq<InputPacket>, p: InputPacket)
    ensures Repeated(taken + [p]) == if p in taken then Repeated(taken) + [p] else Repeated(taken)
  {
    assert (taken + [p])[..|taken|] == taken;
  }

  lemma {:induction false} LackedSame(inputs: seq<InputPacket>, a: seq<InputPacket>, b: seq<InputPacket>)
    requires forall p :: p in inputs ==> (p in a <==> p in b)
    ensures Lacked(inputs, a) == Lacked(inputs, b)
  {
    if inputs != [] {
      var init, last := inputs[..|inputs| - 1], inputs[|inputs| - 1];
      assert inputs == init + [last];
      LackedSame(init, a, b);
    }
  }

  lemma {:induction false} NothingTaken(inputs: seq<InputPacket>)
    ensures Lacked(inputs, []) == inputs
  {
    if inputs != [] {
      NothingTaken(inputs[..|inputs| - 1]);
      assert inputs == inputs[..|inputs| - 1] + [inputs[|inputs| - 1]];
    }
  }

  lemma {:induction false} AllTaken(inputs: seq<InputPacket>, taken: seq<InputPacket>)
    requires forall p :: p in inputs ==> p in taken
    ensures Lacked(inputs, taken) == []
  {
    if inputs != [] { AllTaken(inputs[..|inputs| - 1], taken); }
  }

  lemma {:induction false} NoneRepeated(taken: seq<InputPacket>)
    requires Distinct(taken)
    ensures Repeated(taken) == []
  {
    if taken != [] { NoneRepeated(taken[..|taken| - 1]); }
  }

  lemma DistinctInit(init: seq<InputPacket>, last: InputPacket)
    requires Distinct(init + [last])
    ensures Distinct(init) && last !in init
  {
    var all := init + [last];
    assert all[|init|] == last && forall i :: 0 <= i < |init| ==> all[i] == init[i];
  }

  lemma PlusSwaps(a: Point, b: Point, c: Point)
    ensures Plus(Plus(a, b), c) == Plus(Plus(a, c), b)
  {
  }

  // An input taken for the first time is lacked no more.
  lemma {:induction false} TakenFirst(inputs: seq<InputPacket>, taken: seq<InputPacket>, p: InputPacket)
    requires Distinct(inputs) && p in inputs && p !in taken
    ensures Displacement(Lacked(inputs, taken)) == Plus(Displacement(Lacked(inputs, taken + [p])), Shift(p.inputs))
  {
    hide Lacked, Displacement, Distinct;
    var init, last := inputs[..|inputs| - 1], inputs[|inputs| - 1];
    assert inputs == init + [last];
    DistinctInit(init, last);
    LackedNext(init, last, taken);
    LackedNext(init, last, taken + [p]);
    DisplacementNext(Lacked(init, taken), last);
    if p == last {
      LackedSame(init, taken, taken + [p]);
    } else {
      TakenFirst(init, taken, p);
      DisplacementNext(Lacked(init, taken + [p]), last);
      PlusSwaps(Displacement(Lacked(init, taken + [p])), Shift(p.inputs), Shift(last.inputs));
    }
  }

  /** All inputs and those taken again move a player as far as the inputs taken and those lacked. */
  lemma {:induction false} Balance(inputs: seq<InputPacket>, taken: seq<InputPacket>)
    requires Distinct(inputs) && forall p :: p in taken ==> p in inputs
    ensures Plus(Displacement(inputs), Displacement(Repeated(taken)))
         == Plus(Displacement(taken), Displacement(Lacked(inputs, taken)))
  {
    hide Lacked, Repeated, Displacement, Distinct;
    if taken == [] {
      NothingTaken(inputs);
      NoneTakenTwice();
      BalanceStart(Displacement(inputs));
    } else {
      var init, last := taken[..|taken| - 1], taken[|taken| - 1];
      assert taken == init + [last];
      Balance(inputs, init);
      RepeatedNext(init, last);
      DisplacementNext(init, last);
      if last in init {
        LackedSame(inputs, init, taken);
        DisplacementNext(Repeated(init), last);
        BalanceMore(Displacement(inputs), Displacement(Repeated(init)), Displacement(init),
                    Displacement(Lacked(inputs, init)), Shift(last.inputs));
      } else {
        TakenFirst(inputs, init, last);
        BalanceMove(Displacement(init), Displacement(Lacked(inputs, taken)), Shift(last.inputs));
      }
    }
  }

  lemma NoneTakenTwice()
    ensures Repeated([]) == [] && Displacement([]) == NOWHERE
  {
    DisplacementNone();
  }

  lemma BalanceStart(a: Point)
    ensures Plus(a, NOWHERE) == Plus(NOWHERE, a)
  {
  }

  lemma BalanceMore(a: Point, b: Point, c: Point, d: Point, e: Point)
    requires Plus(a, b) == Plus(c, d)
    ensures Plus(a, Plus(b, e)) == Plus(Plus(c, e), d)
  {
  }

  lemma BalanceMove(a: Point, b: Point, c: Point)
    ensures Plus(a, Plus(b, c)) == Plus(Plus(a, c), b)
  {
  }

  // ---------- when the position is right ----------

  // The inputs that the client has forgotten and the last snapshot lacks.
  function Missed(s: System): seq<InputPacket>
    requires Forgotten(s) <= |AllIssued(s)|
  {
    Lacked(AllIssued(s)[..Forgotten(s)], s.last)
  }

  // Whatever the last snapshot has taken, the client has forgotten.
  lemma LastForgotten(s: System)
    requires Coherent(s)
    ensures Forgotten(s) <= |AllIssued(s)|
    ensures forall p :: p in s.last ==> p in AllIssued(s)[..Forgotten(s)]
  {
    hide AllIssued, Top, Goal, Honest, Genuine, PressedBefore, LastSnapshot;
    ForgottenIssued(s);
    TicksIssued(s);
    TopReached(s.last);
    forall p | p in s.last ensures p in AllIssued(s)[..Forgotten(s)] {
      assert p in s.taken;
      var i :| 0 <= i < |AllIssued(s)| && AllIssued(s)[i] == p;
      assert AllIssued(s)[..Forgotten(s)][i] == p;
    }
  }

  lemma Regroup(start: Point, at: Point, owed: Point, taken: Point, lacked: Point, repeated: Point,
                forgotten: Point, pending: Point)
    requires Plus(at, owed) == Plus(start, taken) && Plus(forgotten, repeated) == Plus(taken, lacked)
    ensures Plus(at, pending) == Plus(start, Plus(forgotten, pending)) <==> Plus(lacked, owed) == repeated
  {
  }

  lemma TwoParts(inputs: seq<InputPacket>, i: nat)
    requires i <= |inputs|
    ensures Displacement(inputs) == Plus(Displacement(inputs[..i]), Displacement(inputs[i..]))
  {
    assert inputs == inputs[..i] + inputs[i..];
    DisplacementConcat(inputs[..i], inputs[i..]);
  }

  lemma CoherentExact(s: System)
    requires Coherent(s) && Client(s).pos.Some?
    ensures Forgotten(s) <= |AllIssued(s)|
    ensures Client(s).pos.value == Ideal(s)
       <==> Plus(Displacement(Missed(s)), s.owed) == Displacement(Repeated(s.last))
  {
    hide AllIssued, Forgotten, Displacement, LastSnapshot, Client, Lacked, Repeated, Coherent, Top, Distinct;
    CoherentPosition(s);
    LastForgotten(s);
    TicksIssued(s);
    var inputs, f, at := AllIssued(s), Forgotten(s), LastSnapshot(s.events).value.at;
    TwoParts(inputs, f);
    DistinctFront(inputs, f);
    Balance(inputs[..f], s.last);
    Regroup(s.start, at, s.owed, Displacement(s.last), Displacement(Missed(s)), Displacement(Repeated(s.last)),
            Displacement(inputs[..f]), Displacement(inputs[f..]));
  }

  lemma DistinctFront(inputs: seq<InputPacket>, f: nat)
    requires Distinct(inputs) && f <= |inputs|
    ensures Distinct(inputs[..f])
  {
  }

  /** Inputs lost, repeated and reordered, snapshots lost, repeated, reordered and torn, and any first tick:
      once the client holds its own player, it shows it where it ought to be if and only if the inputs that
      it has forgotten and the last snapshot lacks, and what that snapshot lacks of the input it was read
      in, make up for the inputs that this snapshot has taken again. */
  lemma ExactIff(t0: nat, me: nat, start: Point, states: seq<System>, actions: seq<Action>, k: nat)
    requires Play(t0, me, start, states, actions) && k <= |actions| && Client(states[k]).pos.Some?
    ensures Forgotten(states[k]) <= |AllIssued(states[k])|
    ensures Client(states[k]).pos.value == Ideal(states[k])
       <==> Plus(Displacement(Missed(states[k])), states[k].owed) == Displacement(Repeated(states[k].last))
  {
    hide Coherent, Client, Ideal, Displacement, Missed, Repeated;
    PlayCoherent(t0, me, start, states, actions, k);
    CoherentExact(states[k]);
  }

  // Each input arrives once and in order, if it has arrived at all.
  ghost predicate Lossless(states: seq<System>, actions: seq<Action>)
    requires Run(states, actions)
  {
    forall i :: 0 <= i < |actions| && actions[i].Raise? ==> actions[i].i == |states[i].taken|
  }

  // No snapshot is overtaken by one that acknowledges more.
  ghost predicate InOrder(states: seq<System>, actions: seq<Action>)
    requires Run(states, actions)
  {
    forall i :: 0 <= i < |actions| && actions[i].Receive? ==>
      states[i].sent[actions[i].i].ack >= Greatest(states[i].events)
  }

  // No snapshot that arrives was read while the handler was moving the player.
  ghost predicate Untorn(states: seq<System>, actions: seq<Action>)
    requires Run(states, actions)
  {
    forall i :: 0 <= i < |actions| && actions[i].Receive? ==>
      states[i].sent[actions[i].i].owed == NOWHERE
  }

  lemma TakesNext(s: System, a: Action)
    requires s.stage <= 4 && Can(s, a) && s.taken <= AllIssued(s)
    requires a.Raise? ==> a.i == |s.taken|
    ensures Do(s, a).taken <= AllIssued(Do(s, a))
  {
    match a
    case Key(inputs) => KeyIssues(s, inputs);
    case Receive(i) => ReceiveSees(s, i);
    case _ => assert AllIssued(Do(s, a)) == AllIssued(s);
  }

  lemma {:induction false} LosslessTaken(states: seq<System>, actions: seq<Action>, k: nat)
    requires Run(states, actions) && Lossless(states, actions) && k <= |actions|
    requires states[0].taken == []
    ensures states[k].taken <= AllIssued(states[k])
  {
    hide Can, Do, AllIssued;
    if k > 0 {
      LosslessTaken(states, actions, k - 1);
      TakesNext(states[k - 1], actions[k - 1]);
    }
  }

  lemma TopKept(s: System, a: Action)
    requires Coherent(s) && Can(s, a) && Top(s.last) == Greatest(s.events)
    requires a.Receive? ==> s.sent[a.i].ack >= Greatest(s.events)
    ensures Top(Do(s, a).last) == Greatest(Do(s, a).events)
  {
    hide Goal, AllIssued, Owed;
    match a
    case Key(inputs) => KeyIssues(s, inputs);
    case Receive(i) =>
      ReceiveSees(s, i);
      assert s.sent[i] in s.sent;
    case _ =>
  }

  lemma {:induction false} InOrderLast(
      t0: nat, me: nat, start: Point, states: seq<System>, actions: seq<Action>, k: nat)
    requires Play(t0, me, start, states, actions) && InOrder(states, actions) && k <= |actions|
    ensures Top(states[k].last) == Greatest(states[k].events)
  {
    hide Can, Do, Coherent;
    if k > 0 {
      InOrderLast(t0, me, start, states, actions, k - 1);
      PlayCoherent(t0, me, start, states, actions, k - 1);
      TopKept(states[k - 1], actions[k - 1]);
    }
  }

  lemma {:induction false} UntornLast(states: seq<System>, actions: seq<Action>, k: nat)
    requires Run(states, actions) && Untorn(states, actions) && k <= |actions|
    requires states[0].owed == NOWHERE
    ensures states[k].owed == NOWHERE
  {
    if k > 0 {
      UntornLast(states, actions, k - 1);
      assert Can(states[k - 1], actions[k - 1]);
      hide Can, Owed, AllIssued;
    }
  }

  lemma TopOfFirst(inputs: seq<InputPacket>, t0: nat, k: nat)
    requires k <= |inputs| && forall i :: 0 <= i < |inputs| ==> inputs[i].tick == t0 + i
    ensures Top(inputs[..k]) == if k == 0 then 0 else t0 + k - 1
  {
    TopReached(inputs[..k]);
    if k > 0 { assert inputs[..k][k - 1] in inputs[..k]; }
  }

  // The first input has been forgotten although the last snapshot knew of none.
  predicate FirstLost(s: System) {
    s.t0 == 0 && s.last == [] && PressedBefore(s.t0, s.me, s.events) > 0
  }

  // With inputs and snapshots in order, the client has forgotten what the last snapshot has taken.
  lemma ForgotTaken(s: System)
    requires Coherent(s) && s.taken <= AllIssued(s) && Top(s.last) == Greatest(s.events)
    ensures s.last == AllIssued(s)[..|s.last|]
    ensures Forgotten(s) == if FirstLost(s) then 1 else |s.last|
  {
    hide AllIssued, Top, Goal, Honest, Genuine, PressedBefore, LastSnapshot, Distinct;
    TicksIssued(s);
    TopOfFirst(AllIssued(s), s.t0, |s.last|);
  }

  lemma NothingMissed(s: System)
    requires Coherent(s) && s.taken <= AllIssued(s) && Top(s.last) == Greatest(s.events) && Client(s).pos.Some?
    requires !FirstLost(s)
    ensures Client(s).pos.value == Ideal(s) <==> s.owed == NOWHERE
  {
    hide Coherent, AllIssued, Forgotten, Client, Ideal, Top, FirstLost;
    CoherentExact(s);
    ForgotTaken(s);
    TicksIssued(s);
    DistinctFront(AllIssued(s), |s.last|);
    AllTaken(s.last, s.last);
    NoneRepeated(s.last);
    DisplacementNone();
    hide Displacement;
    BalanceStart(s.owed);
    ZeroAfter(s.owed);
  }

  /** With inputs and snapshots that are not reordered or repeated, snapshots that may be lost, and a first
      tick of at least 1, the position is right if and only if the last snapshot lacked nothing of the input
      whose handling it fell into. */
  lemma ExactInOrder(t0: nat, me: nat, start: Point, states: seq<System>, actions: seq<Action>, k: nat)
    requires t0 >= 1 && Play(t0, me, start, states, actions)
    requires Lossless(states, actions) && InOrder(states, actions)
    requires k <= |actions| && Client(states[k]).pos.Some?
    ensures Client(states[k]).pos.value == Ideal(states[k]) <==> states[k].owed == NOWHERE
  {
    hide Coherent, Can, Do, Client, Ideal, AllIssued, Top;
    PlayCoherent(t0, me, start, states, actions, k);
    LosslessTaken(states, actions, k);
    InOrderLast(t0, me, start, states, actions, k);
    NothingMissed(states[k]);
  }

  /** If, besides, no snapshot that arrives was read in the middle of an input, the client shows its
      player at the start position plus everything it ever pressed, so a snapshot never moves the
      player it shows. */
  lemma ExactPrediction(t0: nat, me: nat, start: Point, states: seq<System>, actions: seq<Action>, k: nat)
    requires t0 >= 1 && Play(t0, me, start, states, actions) && Lossless(states, actions)
    requires InOrder(states, actions) && Untorn(states, actions) && k <= |actions|
    ensures Client(states[k]).pos.Some? ==> Client(states[k]).pos.value == Ideal(states[k])
    ensures k < |actions| && actions[k].Receive? && Client(states[k]).pos.Some? ==>
              Client(states[k + 1]).pos == Client(states[k]).pos
  {
    hide Client, Ideal, AllIssued;
    UntornLast(states, actions, k);
    if Client(states[k]).pos.Some? { ExactInOrder(t0, me, start, states, actions, k); }
    if k < |actions| && actions[k].Receive? {
      UntornLast(states, actions, k + 1);
      ReceiveShows(states[k], actions[k].i);
      ExactInOrder(t0, me, start, states, actions, k + 1);
    }
  }

  lemma ReceiveShows(s: System, i: nat)
    requires s.stage <= 4 && Can(s, Receive(i))
    ensures Client(Do(s, Receive(i))).pos.Some? && Ideal(Do(s, Receive(i))) == Ideal(s)
  {
    var s' := Do(s, Receive(i));
    assert s'.events[..|s.events|] == s.events;
  }

  // ---------- a first tick of 0 ----------

  lemma FirstMissed(s: System)
    requires Coherent(s) && Client(s).pos.Some? && FirstLost(s) && Forgotten(s) == 1
    ensures |AllIssued(s)| > 0
    ensures s.owed == NOWHERE
    ensures Client(s).pos.value == Ideal(s) <==> Shift(AllIssued(s)[0].inputs) == NOWHERE
  {
    hide Coherent, AllIssued, Forgotten, Client, Ideal, Shift;
    CoherentExact(s);
    CoherentPosition(s);
    NothingTaken(AllIssued(s)[..1]);
    NoneTakenTwice();
    assert AllIssued(s)[..1] == [AllIssued(s)[0]];
    DisplacementOne(AllIssued(s)[0]);
    ZeroAfter(Shift(AllIssued(s)[0].inputs));
  }

  /** The server acknowledges nothing by acknowledging tick 0. A client whose first tick is 0, with inputs and
      snapshots in order, is right if and only if the last snapshot lacked nothing and either knew of an
      input, or came before the first one was issued, or that one does not move the player. */
  lemma FirstTickZero(me: nat, start: Point, states: seq<System>, actions: seq<Action>, k: nat)
    requires Play(0, me, start, states, actions) && Lossless(states, actions) && InOrder(states, actions)
    requires k <= |actions| && Client(states[k]).pos.Some?
    ensures FirstLost(states[k]) ==> |AllIssued(states[k])| > 0
    ensures Client(states[k]).pos.value == Ideal(states[k])
       <==> states[k].owed == NOWHERE
            && (FirstLost(states[k]) ==> Shift(AllIssued(states[k])[0].inputs) == NOWHERE)
  {
    hide Coherent, Can, Do, Client, Ideal, AllIssued, Top, FirstLost, Shift;
    PlayCoherent(0, me, start, states, actions, k);
    LosslessTaken(states, actions, k);
    InOrderLast(0, me, start, states, actions, k);
    var s := states[k];
    ForgotTaken(s);
    if FirstLost(s) { FirstMissed(s); } else { NothingMissed(s); }
  }

  // ---------- inputs at which it fails ----------

  const RIGHT_ONLY := NO_INPUTS.(right := true)

  lemma OneStepRight(t0: nat)
    ensures Issued(t0, 1, [Press(RIGHT_ONLY)]) == [InputPacket(1, t0, RIGHT_ONLY)]
    ensures Live(t0, 1, [Press(RIGHT_ONLY)]) == Predictor(t0 + 1, None, [InputPacket(1, t0, RIGHT_ONLY)])
    ensures Displacement([InputPacket(1, t0, RIGHT_ONLY)]) == Point(5, 0.0) && Displacement([]) == NOWHERE
  {
    DisplacementOne(InputPacket(1, t0, RIGHT_ONLY));
    DisplacementNone();
    hide Displacement;
    assert [Press(RIGHT_ONLY)][..0] == [];
  }

  lemma RightDropped(t0: nat, ack: nat, at: Point)
    requires t0 <= ack
    ensures Live(t0, 1, [Press(RIGHT_ONLY), Snapshot(ack, at)]) == Predictor(t0 + 1, Some(at), [])
    ensures Issued(t0, 1, [Press(RIGHT_ONLY), Snapshot(ack, at)]) == [InputPacket(1, t0, RIGHT_ONLY)]
  {
    var p := InputPacket(1, t0, RIGHT_ONLY);
    OneStepRight(t0);
    hide Displacement;
    assert [Press(RIGHT_ONLY), Snapshot(ack, at)][..1] == [Press(RIGHT_ONLY)];
    assert [p][1..] == [] && DropAcked([p], ack) == DropAcked([], ack) == [];
    ZeroAfter(at);
  }

  // A client presses RIGHT once.
  function Pressed(t0: nat, start: Point): (s: System)
    ensures s == Init(t0, 1, start).(events := [Press(RIGHT_ONLY)])
    ensures AllIssued(s) == [InputPacket(1, t0, RIGHT_ONLY)]
  {
    OneStepRight(t0);
    assert [] + [Press(RIGHT_ONLY)] == [Press(RIGHT_ONLY)];
    Do(Init(t0, 1, start), Key(RIGHT_ONLY))
  }

  // A broadcast during which the handler does nothing.
  function Broadcast(s: System): (s': System)
    requires s.reading.None? && s.stage <= 4
    ensures s' == s.(sent := s.sent + [Sent(s.taken, s.server.ack, s.server.at, Owed(s))])
  {
    Do(Do(s, ReadX), ReadY)
  }

  // The handler takes an input from beginning to end.
  function HandledRight(s: System, i: nat): (s': System)
    requires s.stage == 0 && s.reading.None? && i < |AllIssued(s)| && AllIssued(s)[i].inputs == RIGHT_ONLY
    ensures s' == s.(taken := s.taken + [AllIssued(s)[i]],
                     server := Handle(s.server, AllIssued(s)[i]))
  {
    var p := AllIssued(s)[i];
    var s1 := Do(s, Raise(i));
    assert s1.taken[|s.taken|] == p;
    Do(Do(Do(Do(s1, Flag), Flag), Flag), Flag)
  }

  /** First tick 0: RIGHT is pressed, and a snapshot that knows of no input drops it. */
  lemma FirstTickZeroLosesInput(start: Point)
    ensures var s := Do(Broadcast(Pressed(0, start)), Receive(0));
            Client(s).pos == Some(start) && Ideal(s) == Point(start.x + 5, start.y)
  {
    var s := Do(Broadcast(Pressed(0, start)), Receive(0));
    assert s.events == [Press(RIGHT_ONLY), Snapshot(0, start)];
    RightDropped(0, 0, start);
    OneStepRight(0);
  }

  lemma StaleShown(start: Point, there: Point)
    ensures var events := [Press(RIGHT_ONLY), Snapshot(1, there), Snapshot(0, start)];
            Live(1, 1, events).pos == Some(start) && Issued(1, 1, events) == [InputPacket(1, 1, RIGHT_ONLY)]
  {
    var events := [Press(RIGHT_ONLY), Snapshot(1, there), Snapshot(0, start)];
    RightDropped(1, 1, there);
    OneStepRight(1);
    hide Displacement;
    assert events[..2] == [Press(RIGHT_ONLY), Snapshot(1, there)];
    ZeroAfter(start);
    assert DropAcked([], 0) == [];
  }

  // RIGHT is pressed and handled between two broadcasts.
  function TwoSnapshots(start: Point): (s: System)
    ensures s.stage == 0 && s.t0 == 1 && s.me == 1 && s.start == start && s.events == [Press(RIGHT_ONLY)]
    ensures |s.sent| == 2 && s.sent[0].ack == 0 && s.sent[0].at == start
    ensures s.sent[1].ack == 1 && s.sent[1].at == Point(start.x + 5, start.y)
  {
    Broadcast(HandledRight(Broadcast(Pressed(1, start)), 0))
  }

  /** Snapshots reordered: the later one arrives first, and the earlier one then takes the player back. */
  lemma StaleSnapshotMisplaces(start: Point)
    ensures var s := Do(Do(TwoSnapshots(start), Receive(1)), Receive(0));
            Client(s).pos == Some(start) && Ideal(s) == Point(start.x + 5, start.y)
  {
    hide TwoSnapshots, Live, Issued, Displacement;
    var s := Do(Do(TwoSnapshots(start), Receive(1)), Receive(0));
    StaleShown(start, Point(start.x + 5, start.y));
    OneStepRight(1);
    assert s.events == [Press(RIGHT_ONLY), Snapshot(1, Point(start.x + 5, start.y)), Snapshot(0, start)];
  }

  /** A snapshot torn: it is read after RIGHT has been acknowledged and before the player moves. */
  lemma TornSnapshotMisplaces(start: Point)
    ensures var s := Do(Broadcast(Do(Pressed(1, start), Raise(0))), Receive(0));
            Client(s).pos == Some(start) && Ideal(s) == Point(start.x + 5, start.y)
  {
    var s := Do(Broadcast(Do(Pressed(1, start), Raise(0))), Receive(0));
    assert s.events == [Press(RIGHT_ONLY), Snapshot(1, start)];
    RightDropped(1, 1, start);
    OneStepRight(1);
  }

  // RIGHT is pressed twice.
  function PressedTwice(start: Point): (s: System)
    ensures s == Init(1, 1, start).(events := [Press(RIGHT_ONLY), Press(RIGHT_ONLY)])
    ensures AllIssued(s) == [InputPacket(1, 1, RIGHT_ONLY), InputPacket(1, 2, RIGHT_ONLY)]
  {
    var one, events := Pressed(1, start), [Press(RIGHT_ONLY), Press(RIGHT_ONLY)];
    assert events == [Press(RIGHT_ONLY)] + [Press(RIGHT_ONLY)];
    assert events[..1] == [Press(RIGHT_ONLY)];
    Do(one, Key(RIGHT_ONLY))
  }

  lemma TwiceDropped(at: Point)
    ensures var events := [Press(RIGHT_ONLY), Press(RIGHT_ONLY), Snapshot(2, at)];
            Live(1, 1, events) == Predictor(3, Some(at), [])
            && Issued(1, 1, events) == [InputPacket(1, 1, RIGHT_ONLY), InputPacket(1, 2, RIGHT_ONLY)]
    ensures Displacement([InputPacket(1, 1, RIGHT_ONLY), InputPacket(1, 2, RIGHT_ONLY)]) == Point(10, 0.0)
  {
    hide Displacement;
    var p, q := InputPacket(1, 1, RIGHT_ONLY), InputPacket(1, 2, RIGHT_ONLY);
    var events := [Press(RIGHT_ONLY), Press(RIGHT_ONLY), Snapshot(2, at)];
    OneStepRight(1);
    DisplacementNext([p], q);
    assert [p] + [q] == [p, q];
    assert events[..2] == [Press(RIGHT_ONLY), Press(RIGHT_ONLY)] && events[..2][..1] == [Press(RIGHT_ONLY)];
    assert [p, q][1..] == [q] && [q][1..] == [];
    assert DropAcked([p, q], 2) == DropAcked([q], 2) == DropAcked([], 2) == [];
    ZeroAfter(at);
  }

  /** An input lost: of two, only the second arrives, and the acknowledgement of its tick drops both. */
  lemma LostInputMisplaces(start: Point)
    ensures var s := Do(Broadcast(HandledRight(PressedTwice(start), 1)), Receive(0));
            Client(s).pos == Some(Point(start.x + 5, start.y)) && Ideal(s) == Point(start.x + 10, start.y)
  {
    hide Live, Issued, Displacement;
    var s := Do(Broadcast(HandledRight(PressedTwice(start), 1)), Receive(0));
    var at := Point(start.x + 5, start.y);
    assert s.events == [Press(RIGHT_ONLY), Press(RIGHT_ONLY), Snapshot(2, at)];
    TwiceDropped(at);
  }

  /** An input repeated: it moves the player twice. */
  lemma RepeatedInputMisplaces(start: Point)
    ensures AllIssued(HandledRight(Pressed(1, start), 0)) == AllIssued(Pressed(1, start))
    ensures var s := Do(Broadcast(HandledRight(HandledRight(Pressed(1, start), 0), 0)), Receive(0));
            Client(s).pos == Some(Point(start.x + 10, start.y)) && Ideal(s) == Point(start.x + 5, start.y)
  {
    hide Live, Issued, Displacement;
    assert AllIssued(HandledRight(Pressed(1, start), 0)) == AllIssued(Pressed(1, start));
    var s := Do(Broadcast(HandledRight(HandledRight(Pressed(1, start), 0), 0)), Receive(0));
    var at := Point(start.x + 10, start.y);
    assert s.events == [Press(RIGHT_ONLY), Snapshot(1, at)];
    RightDropped(1, 1, at);
    OneStepRight(1);
  }
}
