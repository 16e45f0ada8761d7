/** Client-side prediction: the client moves its own player at once, keeps the inputs the server has
    not acknowledged, and replays them on every snapshot. */
module Prediction {
  import opened Basics
  import opened Protocol

  // tick: that of the next input; pos: where the client shows its own player, once it has one.
  datatype Predictor = Predictor(tick: nat, pos: Option<Point>, pending: seq<InputPacket>)

  // The client issues its next input packet.
  function Issue(p: Predictor, me: nat, inputs: Inputs): Predictor {
    if inputs == NO_INPUTS then p.(tick := p.tick + 1)
    else
      Predictor(p.tick + 1,
                if p.pos.Some? then Some(Plus(p.pos.value, Shift(inputs))) else None,
                p.pending + [InputPacket(me, p.tick, inputs)])
  }

  function DropAcked(pending: seq<InputPacket>, ack: nat): seq<InputPacket> {
    if |pending| > 0 && pending[0].tick <= ack then DropAcked(pending[1..], ack) else pending
  }

  // A snapshot of the own player arrives.
  function Reconcile(p: Predictor, ack: nat, at: Point): Predictor {
    var pending := DropAcked(p.pending, ack);
    Predictor(p.tick, Some(Plus(at, Displacement(pending))), pending)
  }

  // ---------- what a client lives through ----------

  datatype Event = Press(inputs: Inputs) | Snapshot(ack: nat, at: Point)

  function Live(t0: nat, me: nat, events: seq<Event>): Predictor {
    if |events| == 0 then Predictor(t0, None, [])
    else
      var p := Live(t0, me, events[..|events| - 1]);
      match events[|events| - 1]
      case Press(inputs) => Issue(p, me, inputs)
      case Snapshot(ack, at) => Reconcile(p, ack, at)
  }

  // All inputs issued, also the empty ones, which are sent but not kept.
  function Issued(t0: nat, me: nat, events: seq<Event>): seq<InputPacket> {
    if |events| == 0 then []
    else
      var before := Issued(t0, me, events[..|events| - 1]);
      match events[|events| - 1]
      case Press(inputs) => before + [InputPacket(me, t0 + |before|, inputs)]
      case Snapshot(_, _) => before
  }

  // The greatest acknowledgement received; 0 before the first.
  function Greatest(events: seq<Event>): nat {
    if |events| == 0 then 0
    else
      var g := Greatest(events[..|events| - 1]);
      match events[|events| - 1]
      case Press(_) => g
      case Snapshot(ack, _) => if ack > g then ack else g
  }

  function LastSnapshot(events: seq<Event>): Option<Event> {
    if |events| == 0 then None
    else if events[|events| - 1].Snapshot? then Some(events[|events| - 1])
    else LastSnapshot(events[..|events| - 1])
  }

  // How many inputs had been issued when the last snapshot came.
  function PressedBefore(t0: nat, me: nat, events: seq<Event>): nat {
    if |events| == 0 then 0
    else if events[|events| - 1].Snapshot? then |Issued(t0, me, events[..|events| - 1])|
    else PressedBefore(t0, me, events[..|events| - 1])
  }

  // Inputs up to this tick have been dropped. An acknowledgement of 0 says that nothing has been
  // handled, but it drops an input of tick 0 that has been issued before it comes.
  function Threshold(t0: nat, me: nat, events: seq<Event>): int {
    if t0 == 0 && PressedBefore(t0, me, events) == 0 then -1 else Greatest(events)
  }

  predicate Counts(p: InputPacket, g: int) {
    p.inputs != NO_INPUTS && p.tick > g
  }

  // The non-empty inputs with a tick above g, in order.
  function Above(inputs: seq<InputPacket>, g: int): seq<InputPacket> {
    if |inputs| == 0 then []
    else
      var rest, last := Above(inputs[..|inputs| - 1], g), inputs[|inputs| - 1];
      if Counts(last, g) then rest + [last] else rest
  }

  lemma AboveNext(inputs: seq<InputPacket>, p: InputPacket, g: int)
    ensures Above(inputs + [p], g) == if Counts(p, g) then Above(inputs, g) + [p] else Above(inputs, g)
  {
    assert (inputs + [p])[..|inputs|] == inputs;
  }

  ghost predicate Ascending(inputs: seq<InputPacket>) {
    forall i, j :: 0 <= i < j < |inputs| ==> inputs[i].tick < inputs[j].tick
  }

  lemma {:induction false} AboveIn(inputs: seq<InputPacket>, g: int)
    requires Ascending(inputs)
    ensures forall p :: p in Above(inputs, g) ==> p in inputs && Counts(p, g)
    ensures Ascending(Above(inputs, g))
  {
    if |inputs| > 0 {
      var init, last := inputs[..|inputs| - 1], inputs[|inputs| - 1];
      AboveIn(init, g);
      hide Above, Ascending;
      assert inputs == init + [last];
      AboveNext(init, last, g);
      AllBelow(init, last);
      if Counts(last, g) { AscendingNext(Above(init, g), last); }
    }
  }

  lemma AllBelow(init: seq<InputPacket>, last: InputPacket)
    requires Ascending(init + [last])
    ensures Ascending(init) && forall p :: p in init ==> p.tick < last.tick
  {
    var all := init + [last];
    assert all[|init|] == last && forall i :: 0 <= i < |init| ==> all[i] == init[i];
  }

  lemma AscendingNext(rest: seq<InputPacket>, last: InputPacket)
    requires Ascending(rest) && forall p :: p in rest ==> p.tick < last.tick
    ensures Ascending(rest + [last])
  {
    assert forall i :: 0 <= i < |rest| ==> rest[i] in rest;
  }

  // Popping acknowledged inputs from the front is filtering, because ticks ascend.
  lemma {:induction false} DropIsFilter(inputs: seq<InputPacket>, a: nat)
    requires Ascending(inputs) && forall p :: p in inputs ==> p.inputs != NO_INPUTS
    ensures DropAcked(inputs, a) == Above(inputs, a)
  {
    if |inputs| > 0 {
      if inputs[0].tick <= a {
        AboveFront(inputs, a);
        assert forall p :: p in inputs[1..] ==> p in inputs;
        DropIsFilter(inputs[1..], a);
      } else {
        AboveAll(inputs, a);
      }
    }
  }

  lemma {:induction false} AboveFront(inputs: seq<InputPacket>, a: int)
    requires |inputs| > 0 && inputs[0].tick <= a
    ensures Above(inputs, a) == Above(inputs[1..], a)
  {
    hide Above;
    var init, last := inputs[..|inputs| - 1], inputs[|inputs| - 1];
    assert inputs == init + [last];
    AboveNext(init, last, a);
    if |init| > 0 {
      AboveFront(init, a);
      AboveNext(init[1..], last, a);
      assert inputs[1..] == init[1..] + [last];
    } else {
      assert init == inputs[1..];
    }
  }

  lemma {:induction false} AboveAll(inputs: seq<InputPacket>, a: int)
    requires forall p :: p in inputs ==> Counts(p, a)
    ensures Above(inputs, a) == inputs
  {
    if |inputs| > 0 {
      var init, last := inputs[..|inputs| - 1], inputs[|inputs| - 1];
      AboveAll(init, a);
      assert last in inputs && init + [last] == inputs;
    }
  }

  lemma NoneAboveAny(g: int)
    ensures Above([], g) == []
  {
  }

  lemma {:induction false} AboveAbove(inputs: seq<InputPacket>, g: int, a: int)
    ensures Above(Above(inputs, g), a) == Above(inputs, Greater(a, g))
  {
    hide Above;
    if |inputs| > 0 {
      var init, last := inputs[..|inputs| - 1], inputs[|inputs| - 1];
      AboveAbove(init, g, a);
      assert inputs == init + [last];
      AboveNext(init, last, g);
      AboveNext(init, last, Greater(a, g));
      if Counts(last, g) {
        AboveNext(Above(init, g), last, a);
      }
    } else {
      NoneAboveAny(g);
      NoneAboveAny(a);
      NoneAboveAny(Greater(a, g));
      assert inputs == [];
    }
  }

  lemma {:induction false} IssuedTicks(t0: nat, me: nat, events: seq<Event>)
    ensures forall i :: 0 <= i < |Issued(t0, me, events)| ==> Issued(t0, me, events)[i].tick == t0 + i
    ensures Live(t0, me, events).tick == t0 + |Issued(t0, me, events)|
  {
    if |events| > 0 { IssuedTicks(t0, me, events[..|events| - 1]); }
  }

  // The server acknowledges only ticks that the client has already issued; 0 before it handles any.
  predicate Genuine(t0: nat, me: nat, events: seq<Event>) {
    |events| == 0 ||
    var before := events[..|events| - 1];
    && Genuine(t0, me, before)
    && match events[|events| - 1]
       case Press(_) => true
       case Snapshot(ack, _) => ack == 0 || ack < t0 + |Issued(t0, me, before)|
  }

  lemma {:induction false} ThresholdIssued(t0: nat, me: nat, events: seq<Event>)
    requires Genuine(t0, me, events)
    ensures Threshold(t0, me, events) < t0 + |Issued(t0, me, events)|
    ensures Greatest(events) == 0 || Greatest(events) < t0 + |Issued(t0, me, events)|
    ensures t0 == 0 && PressedBefore(t0, me, events) == 0 ==> Greatest(events) == 0
    ensures PressedBefore(t0, me, events) <= |Issued(t0, me, events)|
  {
    if |events| > 0 { ThresholdIssued(t0, me, events[..|events| - 1]); }
  }

  // Pending is right and in order; so is the position.
  ghost predicate Reconciled(t0: nat, me: nat, events: seq<Event>) {
    var p := Live(t0, me, events);
    && p.pending == Above(Issued(t0, me, events), Threshold(t0, me, events))
    && (LastSnapshot(events).None? ==> p.pos == None)
    && (LastSnapshot(events).Some? ==>
          LastSnapshot(events).value.Snapshot?
          && p.pos == Some(Plus(LastSnapshot(events).value.at, Displacement(p.pending))))
  }

  // What a press changes of the client's past.
  lemma PressIssues(t0: nat, me: nat, before: seq<Event>, inputs: Inputs)
    ensures var events, issued := before + [Press(inputs)], Issued(t0, me, before);
      && Issued(t0, me, events) == issued + [InputPacket(me, t0 + |issued|, inputs)]
      && Threshold(t0, me, events) == Threshold(t0, me, before)
      && LastSnapshot(events) == LastSnapshot(before)
      && Live(t0, me, events) == Issue(Live(t0, me, before), me, inputs)
      && Live(t0, me, before).tick == t0 + |issued|
  {
    var events := before + [Press(inputs)];
    assert events[..|events| - 1] == before;
    IssuedTicks(t0, me, before);
  }

  lemma PressMoves(at: Point, pending: seq<InputPacket>, p: InputPacket)
    ensures Plus(Plus(at, Displacement(pending)), Shift(p.inputs)) == Plus(at, Displacement(pending + [p]))
  {
    DisplacementNext(pending, p);
    PlusAssociates(at, Displacement(pending), Shift(p.inputs));
  }

  lemma PressReconciles(t0: nat, me: nat, before: seq<Event>, inputs: Inputs)
    requires Reconciled(t0, me, before) && Threshold(t0, me, before) < t0 + |Issued(t0, me, before)|
    ensures Reconciled(t0, me, before + [Press(inputs)])
  {
    hide Live, Issued, Threshold, LastSnapshot, Above, Displacement, Plus, Shift;
    var p, issued := Live(t0, me, before), Issued(t0, me, before);
    var packet := InputPacket(me, t0 + |issued|, inputs);
    PressIssues(t0, me, before, inputs);
    AboveNext(issued, packet, Threshold(t0, me, before));
    if LastSnapshot(before).Some? {
      PressMoves(LastSnapshot(before).value.at, p.pending, packet);
    }
  }

  // A snapshot raises the threshold to its acknowledgement, if there is anything to drop.
  lemma SnapshotThreshold(t0: nat, me: nat, before: seq<Event>, ack: nat, at: Point)
    requires Genuine(t0, me, before + [Snapshot(ack, at)])
    ensures Issued(t0, me, before + [Snapshot(ack, at)]) == Issued(t0, me, before)
    ensures Issued(t0, me, before) != [] ==>
              Threshold(t0, me, before + [Snapshot(ack, at)]) == Greater(ack, Threshold(t0, me, before))
  {
    var events := before + [Snapshot(ack, at)];
    assert events[..|events| - 1] == before;
    ThresholdIssued(t0, me, before);
  }

  function Greater(a: int, b: int): int {
    if a > b then a else b
  }

  lemma SnapshotPends(t0: nat, me: nat, before: seq<Event>, ack: nat, at: Point)
    requires Reconciled(t0, me, before) && Genuine(t0, me, before + [Snapshot(ack, at)])
    ensures DropAcked(Live(t0, me, before).pending, ack)
         == Above(Issued(t0, me, before), Threshold(t0, me, before + [Snapshot(ack, at)]))
  {
    var issued, g := Issued(t0, me, before), Threshold(t0, me, before);
    SnapshotThreshold(t0, me, before, ack, at);
    IssuedTicks(t0, me, before);
    hide Threshold, Genuine, Live, Issued;
    AboveIn(issued, g);
    DropIsFilter(Above(issued, g), ack);
    AboveAbove(issued, g, ack);
  }

  lemma SnapshotReconciles(t0: nat, me: nat, before: seq<Event>, ack: nat, at: Point)
    requires Reconciled(t0, me, before) && Genuine(t0, me, before + [Snapshot(ack, at)])
    ensures Reconciled(t0, me, before + [Snapshot(ack, at)])
  {
    SnapshotPends(t0, me, before, ack, at);
    SnapshotThreshold(t0, me, before, ack, at);
    var events := before + [Snapshot(ack, at)];
    assert events[..|events| - 1] == before;
  }

  lemma {:induction false} AlwaysReconciled(t0: nat, me: nat, events: seq<Event>)
    requires Genuine(t0, me, events)
    ensures Reconciled(t0, me, events)
  {
    hide Reconciled, Live, Threshold, Issued;
    if |events| > 0 {
      var before := events[..|events| - 1];
      AlwaysReconciled(t0, me, before);
      ThresholdIssued(t0, me, before);
      assert events == before + [events[|events| - 1]];
      match events[|events| - 1]
      case Press(inputs) => PressReconciles(t0, me, before, inputs);
      case Snapshot(ack, at) => SnapshotReconciles(t0, me, before, ack, at);
    } else {
      NothingLived(t0, me);
    }
  }

  lemma NothingLived(t0: nat, me: nat)
    ensures Reconciled(t0, me, [])
  {
  }

  /** On a network that loses, repeats and reorders at will: what is pending is exactly the non-empty
      inputs issued with a tick above the greatest acknowledgement (for a first tick of 0: above none
      of them, until a snapshot comes after the first input), in ascending order of tick, and the
      player is shown at the last snapshot plus the replay of what is pending. */
  lemma ReconciledOnAnyNetwork(t0: nat, me: nat, events: seq<Event>)
    requires Genuine(t0, me, events)
    ensures Reconciled(t0, me, events)
    ensures Ascending(Live(t0, me, events).pending)
    ensures t0 >= 1 ==> Live(t0, me, events).pending == Above(Issued(t0, me, events), Greatest(events))
  {
    AlwaysReconciled(t0, me, events);
    IssuedTicks(t0, me, events);
    AboveIn(Issued(t0, me, events), Threshold(t0, me, events));
  }
}
