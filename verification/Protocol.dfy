/** The UDP protocol between the game server and its clients, as typed messages.

    Horizontal coordinates are integers, because every horizontal velocity of the game is a
    small integer. Vertical coordinates are reals, because some vertical velocities are sines. */
module Protocol {

  datatype Point = Point(x: int, y: real)

  // The flags of a PLAYER_INPUT packet, and the byte that carries them.
  datatype Inputs = Inputs(up: bool, down: bool, left: bool, right: bool, pressed: bool, hold: bool)

  const NO_INPUTS := Inputs(false, false, false, false, false, false)

  const UP: nat := 1
  const DOWN: nat := 2
  const LEFT: nat := 4
  const RIGHT: nat := 8
  const PRESSED: nat := 16
  const HOLD: nat := 32

  function Mask(i: Inputs): nat {
    (if i.up then UP else 0) + (if i.down then DOWN else 0) + (if i.left then LEFT else 0)
    + (if i.right then RIGHT else 0) + (if i.pressed then PRESSED else 0) + (if i.hold then HOLD else 0)
  }

  predicate Bit(mask: nat, flag: nat)
    requires flag > 0
  {
    mask / flag % 2 == 1
  }

  function Flags(mask: nat): Inputs {
    Inputs(Bit(mask, UP), Bit(mask, DOWN), Bit(mask, LEFT), Bit(mask, RIGHT), Bit(mask, PRESSED), Bit(mask, HOLD))
  }

  lemma FlagsOfMask(i: Inputs)
    ensures Mask(i) < 64 && Flags(Mask(i)) == i
    ensures Mask(i) == 0 <==> i == NO_INPUTS
  {
  }

  /** Each direction, a tap and a hold of the trigger has its bit of the byte, from 1 to 32. */
  lemma BitsOfMask(i: Inputs)
    ensures i.up <==> Mask(i) % 2 == 1
    ensures i.down <==> Mask(i) / 2 % 2 == 1
    ensures i.left <==> Mask(i) / 4 % 2 == 1
    ensures i.right <==> Mask(i) / 8 % 2 == 1
    ensures i.pressed <==> Mask(i) / 16 % 2 == 1
    ensures i.hold <==> Mask(i) / 32 % 2 == 1
  {
    hide Mask;
    FlagsOfMask(i);
  }

  datatype InputPacket = InputPacket(playerId: nat, tick: nat, inputs: Inputs)

  // What both ends call an entity: the client's record of one, and one record of a sync packet.
  datatype Seen<P> = Seen(kind: nat, pos: P)
  datatype Entry<P> = Entry(id: nat, kind: nat, pos: P)

  datatype Packet =
    | PlayerState(playerId: nat, sequence: nat, lastProcessedTick: nat, pos: Point)
    | EntitySpawn(id: nat, kind: nat, at: Point)
    | EntityUpdate(id: nat, at: Point)
    | EntityDestroy(id: nat)
    | GlobalStateSync(entries: seq<Entry<Point>>)
    | PlayerDisconnect(leaver: nat)
    | YouHaveBeenKicked
    | BossState(hp: int, maxHp: int)

  datatype Datagram = Datagram(addr: nat, packet: Packet)

  // A 1024-byte datagram has room for the 5-byte header and 72 records of 14 bytes.
  const SYNC_CAPACITY: nat := 72

  // The records of a sync packet that survive the cut at 1024 bytes (see module SyncCodec).
  function Fit<P>(entries: seq<Entry<P>>): seq<Entry<P>> {
    if |entries| <= SYNC_CAPACITY then entries else entries[..SYNC_CAPACITY]
  }

  function Plus(p: Point, d: Point): Point {
    Point(p.x + d.x, p.y + d.y)
  }

  // Displacement of a player by one input packet: 5 units along each pressed direction.
  function Shift(i: Inputs): Point {
    Point((if i.right then 5 else 0) - (if i.left then 5 else 0),
          (if i.down then 5.0 else 0.0) - (if i.up then 5.0 else 0.0))
  }

  function Sum(ds: seq<Point>): Point {
    if |ds| == 0 then Point(0, 0.0) else Plus(Sum(ds[..|ds| - 1]), ds[|ds| - 1])
  }

  function Shifts(inputs: seq<InputPacket>): seq<Point> {
    seq(|inputs|, i requires 0 <= i < |inputs| => Shift(inputs[i].inputs))
  }

  // Total displacement of a sequence of inputs.
  function Displacement(inputs: seq<InputPacket>): Point {
    Sum(Shifts(inputs))
  }

  lemma PlusAssociates(a: Point, b: Point, c: Point)
    ensures Plus(Plus(a, b), c) == Plus(a, Plus(b, c))
  {
  }

  lemma SumNext(ds: seq<Point>, d: Point)
    ensures Sum(ds + [d]) == Plus(Sum(ds), d)
  {
    assert (ds + [d])[..|ds|] == ds;
  }

  lemma {:induction false} SumConcat(a: seq<Point>, b: seq<Point>)
    ensures Sum(a + b) == Plus(Sum(a), Sum(b))
  {
    if |b| == 0 {
      assert a + b == a;
    } else {
      var init, last := b[..|b| - 1], b[|b| - 1];
      SumConcat(a, init);
      SumNext(a + init, last);
      SumNext(init, last);
      assert a + b == (a + init) + [last] && b == init + [last];
      hide Sum;
      PlusAssociates(Sum(a), Sum(init), last);
    }
  }

  lemma DisplacementConcat(a: seq<InputPacket>, b: seq<InputPacket>)
    ensures Displacement(a + b) == Plus(Displacement(a), Displacement(b))
  {
    ShiftsConcat(a, b);
    hide Sum, Shifts;
    SumConcat(Shifts(a), Shifts(b));
  }

  lemma ShiftsConcat(a: seq<InputPacket>, b: seq<InputPacket>)
    ensures Shifts(a + b) == Shifts(a) + Shifts(b)
  {
    hide Shift;
    var all, parts := Shifts(a + b), Shifts(a) + Shifts(b);
    forall i | 0 <= i < |a| + |b| ensures all[i] == parts[i] {
      assert (a + b)[i] == if i < |a| then a[i] else b[i - |a|];
    }
  }

  lemma SumOne(d: Point)
    ensures Sum([d]) == d
  {
    assert [d][..0] == [];
  }

  lemma DisplacementNone()
    ensures Displacement([]) == Point(0, 0.0)
  {
  }

  lemma DisplacementOne(p: InputPacket)
    ensures Displacement([p]) == Shift(p.inputs)
  {
    assert Shifts([p]) == [Shift(p.inputs)];
    hide Sum, Shifts;
    SumOne(Shift(p.inputs));
  }

  lemma DisplacementNext(inputs: seq<InputPacket>, p: InputPacket)
    ensures Displacement(inputs + [p]) == Plus(Displacement(inputs), Shift(p.inputs))
  {
    DisplacementConcat(inputs, [p]);
    DisplacementOne(p);
  }
}
