/** The receive and process threads of the UDP server, step by step, with the circular array between
    them. Each access to the array is one step, because each holds its mutex. */
module UdpPipeline {
  import opened Basics
  import opened RingBuffers

  datatype RecvPc<T> = Waiting | Holding(packet: T)
  datatype ProcPc<T> = Testing | Popping | Handling(packet: T)

  // `received` is everything taken from the socket, `verdicts` whether each packet offered to the
  // buffer was accepted; `crashed` is set when a thread dereferences an empty pop.
  datatype Pipe<T> = Pipe(
    ring: Ring<T>, received: seq<T>, verdicts: seq<bool>, processed: seq<T>,
    recv: RecvPc<T>, procs: seq<ProcPc<T>>, crashed: bool)

  datatype Step<T> = Receive(packet: T) | Push | Test(i: nat) | Pop(i: nat) | Handle(i: nat)

  // The slots of a new buffer hold anything.
  function Init<T>(slots: seq<T>, consumers: nat): Pipe<T> {
    Pipe(Ring(slots, 0, 0, 0), [], [], [], Waiting, seq(consumers, _ => Testing), false)
  }

  predicate Enabled<T>(p: Pipe<T>, s: Step<T>) {
    ValidRing(p.ring) &&
    match s
    case Receive(_) => p.recv.Waiting?
    case Push => p.recv.Holding?
    case Test(i) => i < |p.procs| && p.procs[i].Testing?
    case Pop(i) => i < |p.procs| && p.procs[i].Popping?
    case Handle(i) => i < |p.procs| && p.procs[i].Handling?
  }

  function Next<T>(p: Pipe<T>, s: Step<T>): Pipe<T>
    requires Enabled(p, s)
  {
    match s
    case Receive(packet) => p.(received := p.received + [packet], recv := Holding(packet))
    case Push =>
      p.(ring := Pushed(p.ring, p.recv.packet), verdicts := p.verdicts + [p.ring.size < |p.ring.slots|],
         recv := Waiting)
    case Test(i) =>
      // isEmpty() and pop() lock the buffer separately; another thread may come between them.
      if p.ring.size == 0 then p else p.(procs := p.procs[i := Popping])
    case Pop(i) =>
      if Front(p.ring).None? then p.(crashed := true)
      else p.(ring := Popped(p.ring), procs := p.procs[i := Handling(Front(p.ring).value)])
    case Handle(i) =>
      p.(processed := p.processed + [p.procs[i].packet], procs := p.procs[i := Testing])
  }

  // The packets accepted, given all packets offered and the verdicts on them.
  function Accepted<T>(offered: seq<T>, verdicts: seq<bool>): seq<T>
    requires |offered| == |verdicts|
  {
    if |offered| == 0 then []
    else
      var n := |offered| - 1;
      var before := Accepted(offered[..n], verdicts[..n]);
      if verdicts[n] then before + [offered[n]] else before
  }

  function Drops(verdicts: seq<bool>): nat {
    if |verdicts| == 0 then 0
    else Drops(verdicts[..|verdicts| - 1]) + if verdicts[|verdicts| - 1] then 0 else 1
  }

  function InHand<T>(pc: ProcPc<T>): seq<T> {
    if pc.Handling? then [pc.packet] else []
  }

  function Held<T>(pc: RecvPc<T>): seq<T> {
    if pc.Holding? then [pc.packet] else []
  }

  // With one consumer: nothing is lost, repeated or reordered on the way through the buffer.
  ghost predicate Flows<T>(p: Pipe<T>) {
    && |p.procs| == 1
    && !p.crashed
    && ValidRing(p.ring)
    && |p.verdicts| <= |p.received|
    && p.received == p.received[..|p.verdicts|] + Held(p.recv)
    && Accepted(p.received[..|p.verdicts|], p.verdicts) == p.processed + InHand(p.procs[0]) + Items(p.ring)
    && (p.procs[0].Popping? ==> p.ring.size > 0)
  }

  lemma AcceptedNext<T>(offered: seq<T>, verdicts: seq<bool>, packet: T, ok: bool)
    requires |offered| == |verdicts|
    ensures Accepted(offered + [packet], verdicts + [ok])
         == if ok then Accepted(offered, verdicts) + [packet] else Accepted(offered, verdicts)
  {
    assert (offered + [packet])[..|offered|] == offered && (verdicts + [ok])[..|verdicts|] == verdicts;
  }

  lemma PushFlows<T>(p: Pipe<T>)
    requires Flows(p) && p.recv.Holding?
    ensures Flows(Next(p, Push))
  {
    hide Accepted, Items, Pushed;
    var p' := Next(p, Push);
    var n := |p.verdicts|;
    PushItems(p.ring, p.recv.packet);
    AcceptedNext(p.received[..n], p.verdicts, p.recv.packet, p.ring.size < |p.ring.slots|);
    assert p'.received[..n + 1] == p.received == p.received[..n] + [p.recv.packet];
    assert p.processed + InHand(p.procs[0]) + (Items(p.ring) + [p.recv.packet])
        == p.processed + InHand(p.procs[0]) + Items(p.ring) + [p.recv.packet];
  }

  lemma ReceiveFlows<T>(p: Pipe<T>, packet: T)
    requires Flows(p) && p.recv.Waiting?
    ensures Flows(Next(p, Receive(packet)))
  {
    hide Accepted, Items, ValidRing;
    assert (p.received + [packet])[..|p.verdicts|] == p.received == p.received[..|p.verdicts|];
  }

  lemma PopFlows<T>(p: Pipe<T>)
    requires Flows(p) && p.procs[0].Popping?
    ensures Flows(Next(p, Pop(0)))
  {
    PopItems(p.ring);
    var items := Items(p.ring);
    hide Accepted, Items, Popped, Front, ValidRing;
    assert p.processed + [] + items == p.processed + [items[0]] + items[1..];
  }

  lemma HandleFlows<T>(p: Pipe<T>)
    requires Flows(p) && p.procs[0].Handling?
    ensures Flows(Next(p, Handle(0)))
  {
    hide Accepted, Items, ValidRing;
    var packet := p.procs[0].packet;
    assert p.processed + [packet] + [] == p.processed + [packet];
  }

  lemma NextFlows<T>(p: Pipe<T>, s: Step<T>)
    requires Flows(p) && Enabled(p, s)
    ensures Flows(Next(p, s))
  {
    hide Accepted, Items, ValidRing;
    match s
    case Receive(packet) => ReceiveFlows(p, packet);
    case Push => PushFlows(p);
    case Test(i) =>
    case Pop(i) => PopFlows(p);
    case Handle(i) => HandleFlows(p);
  }

  ghost predicate Run<T(!new)>(states: seq<Pipe<T>>, steps: seq<Step<T>>) {
    && |states| == |steps| + 1
    && forall i :: 0 <= i < |steps| ==> Enabled(states[i], steps[i]) && states[i + 1] == Next(states[i], steps[i])
  }

  lemma {:induction false} DropsCount<T>(offered: seq<T>, verdicts: seq<bool>)
    requires |offered| == |verdicts|
    ensures |offered| == |Accepted(offered, verdicts)| + Drops(verdicts)
  {
    if |offered| > 0 { DropsCount(offered[..|offered| - 1], verdicts[..|verdicts| - 1]); }
  }

  lemma InitFlows<T>(slots: seq<T>)
    requires |slots| > 0
    ensures Flows(Init(slots, 1))
  {
    SlotValue(0, |slots|);
  }

  /** Under every interleaving of the receive thread with the one process thread: the accepted packets
      are those processed, the one in hand and those in the slots from tail to head, in order; every
      received packet has been accepted or dropped or is about to be offered; and no empty pop is ever
      dereferenced. */
  lemma {:induction false} PipelineFlows<T(!new)>(slots: seq<T>, states: seq<Pipe<T>>, steps: seq<Step<T>>, k: nat)
    requires Run(states, steps) && |slots| > 0 && states[0] == Init(slots, 1) && k <= |steps|
    ensures Flows(states[k])
    ensures var p := states[k];
            |p.received| == |Accepted(p.received[..|p.verdicts|], p.verdicts)| + Drops(p.verdicts) + |Held(p.recv)|
  {
    if k > 0 {
      PipelineFlows(slots, states, steps, k - 1);
      NextFlows(states[k - 1], steps[k - 1]);
    } else {
      InitFlows(slots);
    }
    DropsCount(states[k].received[..|states[k].verdicts|], states[k].verdicts);
  }

  // ---------- more process threads ----------

  // Some run with this many process threads dereferences an empty pop.
  ghost predicate CanCrash<T(!new)>(slots: seq<T>, consumers: nat) {
    exists states: seq<Pipe<T>>, steps: seq<Step<T>> ::
      Run(states, steps) && states[0] == Init(slots, consumers) && states[|steps|].crashed
  }

  // Without a consumer the buffer only fills up.
  lemma {:induction false} NobodyCrashes<T(!new)>(slots: seq<T>, states: seq<Pipe<T>>, steps: seq<Step<T>>, k: nat)
    requires Run(states, steps) && states[0] == Init(slots, 0) && k <= |steps|
    ensures |states[k].procs| == 0 && !states[k].crashed
  {
    if k > 0 {
      NobodyCrashes(slots, states, steps, k - 1);
      assert Enabled(states[k - 1], steps[k - 1]);
    }
  }

  // One packet comes in, two threads see it, and one of them takes it.
  function Rush<T>(slots: seq<T>, consumers: nat, packet: T): (states: seq<Pipe<T>>)
    requires |slots| > 0 && consumers >= 2
    ensures |states| == 7 && states[0] == Init(slots, consumers)
    ensures forall i :: 0 <= i < 6 ==>
              Enabled(states[i], RushSteps(packet)[i]) && states[i + 1] == Next(states[i], RushSteps(packet)[i])
    ensures states[6].crashed
  {
    var p2 := OneQueued(slots, consumers, packet);
    var p3 := Next(p2, Test(0));
    var p4 := Next(p3, Test(1));
    PopItems(p4.ring);
    var p5 := Next(p4, Pop(0));
    var p0 := Init(slots, consumers);
    [p0, Next(p0, Receive(packet)), p2, p3, p4, p5, Next(p5, Pop(1))]
  }

  function OneQueued<T>(slots: seq<T>, consumers: nat, packet: T): (p: Pipe<T>)
    requires |slots| > 0
    ensures ValidRing(Ring(slots, 0, 0, 0))
    ensures p == Next(Next(Init(slots, consumers), Receive(packet)), Push)
    ensures ValidRing(p.ring) && p.ring.size == 1 && p.procs == seq(consumers, _ => Testing)
  {
    SlotValue(0, |slots|);
    var p1 := Next(Init(slots, consumers), Receive(packet));
    PushItems(p1.ring, packet);
    Next(p1, Push)
  }

  function RushSteps<T>(packet: T): seq<Step<T>> {
    [Receive(packet), Push, Test(0), Test(1), Pop(0), Pop(1)]
  }

  /** The emptiness test and the pop are safe together for one process thread, and for one only: an
      empty pop can be dereferenced if and only if there are at least two. */
  lemma CrashIffTwoConsumers<T(!new)>(slots: seq<T>, consumers: nat, packet: T)
    requires |slots| > 0
    ensures CanCrash(slots, consumers) <==> consumers >= 2
  {
    if consumers >= 2 {
      var states := Rush(slots, consumers, packet);
      assert Run(states, RushSteps(packet));
      assert states[|RushSteps(packet)|].crashed;
    } else if CanCrash(slots, consumers) {
      var states: seq<Pipe<T>>, steps: seq<Step<T>> :|
        Run(states, steps) && states[0] == Init(slots, consumers) && states[|steps|].crashed;
      if consumers == 1 {
        PipelineFlows(slots, states, steps, |steps|);
      } else {
        NobodyCrashes(slots, states, steps, |steps|);
      }
    }
  }
}
