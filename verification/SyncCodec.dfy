/** GLOBAL_STATE_SYNC on the wire: packed little-endian records, cut at 1024 bytes by the server and
    read back from a zeroed 1024-byte buffer by the client. A float travels as its 32-bit pattern. */
module SyncCodec {
  import opened Basics
  import opened Protocol
  import opened Mirror
  import opened Bytes

  datatype Floats = Floats(x: u32, y: u32)
  type Item = Entry<Floats>

  const MAX_UDP_PACKET_SIZE: nat := 1024
  const HEADER_SIZE: nat := 5
  const RECORD_SIZE: nat := 14
  const GLOBAL_STATE_SYNC: byte := 9

  // The id and the type of an entity are 32 and 16 bits wide.
  predicate Wide(e: Item) {
    e.id < WORD && e.kind < HALF
  }

  function EncodeRecord(e: Item): (r: seq<byte>)
    ensures |r| == RECORD_SIZE
  {
    Le32(e.id) + Le16(e.kind) + Le32(e.pos.x) + Le32(e.pos.y)
  }

  function DecodeRecord(s: seq<byte>): Item
    requires |s| == RECORD_SIZE
  {
    Entry(From32(s[..4]), From16(s[4..6]), Floats(From32(s[6..10]), From32(s[10..14])))
  }

  function EncodeRecords(es: seq<Item>): (r: seq<byte>)
    ensures |r| == RECORD_SIZE * |es|
  {
    if |es| == 0 then [] else EncodeRecords(es[..|es| - 1]) + EncodeRecord(es[|es| - 1])
  }

  // The packet as the server builds it. The count is stored in 32 bits.
  function EncodeSync(es: seq<Item>): seq<byte> {
    [GLOBAL_STATE_SYNC] + Le32(|es| % WORD) + EncodeRecords(es)
  }

  function Cut(data: seq<byte>): (r: seq<byte>)
    ensures |r| <= MAX_UDP_PACKET_SIZE && r <= data
  {
    if |data| > MAX_UDP_PACKET_SIZE then data[..MAX_UDP_PACKET_SIZE] else data
  }

  // What the client's buffer holds after a datagram of at most 1024 bytes.
  function Buffered(payload: seq<byte>): (r: seq<byte>)
    requires |payload| <= MAX_UDP_PACKET_SIZE
    ensures |r| == MAX_UDP_PACKET_SIZE
  {
    payload + seq(MAX_UDP_PACKET_SIZE - |payload|, _ => 0)
  }

  function ClaimedCount(data: seq<byte>): u32
    requires |data| == MAX_UDP_PACKET_SIZE
  {
    From32(data[1..5])
  }

  // Record i of a received buffer.
  function RecordAt(data: seq<byte>, i: nat): Item
    requires |data| == MAX_UDP_PACKET_SIZE && i < SYNC_CAPACITY
  {
    DecodeRecord(data[HEADER_SIZE + RECORD_SIZE * i..HEADER_SIZE + RECORD_SIZE * (i + 1)])
  }

  // The records the client takes from a buffer.
  function Decoded(data: seq<byte>): seq<Item>
    requires |data| == MAX_UDP_PACKET_SIZE
  {
    seq(Least(ClaimedCount(data), SYNC_CAPACITY),
        i requires 0 <= i < Least(ClaimedCount(data), SYNC_CAPACITY) => RecordAt(data, i))
  }

  // ---------- the two ends ----------

  /** The raw form of the server's queueMessage: longer messages are truncated. */
  method QueueRaw(data: seq<byte>) returns (payload: seq<byte>)
    ensures payload == Cut(data) && |payload| <= MAX_UDP_PACKET_SIZE
  {
    var length := |data|;
    if length > MAX_UDP_PACKET_SIZE {
      length := MAX_UDP_PACKET_SIZE;
    }
    var buffer := new byte[MAX_UDP_PACKET_SIZE](_ => 0);
    for i := 0 to length
      invariant buffer[..i] == data[..i]
    {
      buffer[i] := data[i];
    }
    payload := buffer[..length];
  }

  /** The client's decoding loop. It trusts the claimed count only as far as the buffer reaches. */
  method ReceiveSync(before: Entities<Floats>, data: seq<byte>) returns (entities: Entities<Floats>)
    requires |data| == MAX_UDP_PACKET_SIZE
    ensures entities == ApplySync(before, Decoded(data))
  {
    hide Load, DecodeRecord, From32, LocalOnly, Decoded;
    entities := LocalOnly(before);
    var count := From32(data[1..5]);
    var offset := HEADER_SIZE;
    var i := 0;
    DecodedCount(data);
    LoadNothing(LocalOnly(before));
    assert Decoded(data)[..0] == [];
    while i < count
      invariant 0 <= i <= Least(count, SYNC_CAPACITY)
      invariant offset == HEADER_SIZE + RECORD_SIZE * i
      invariant entities == Load(LocalOnly(before), Decoded(data)[..i])
      decreases count - i
    {
      if offset + RECORD_SIZE > |data| {
        break;
      }
      DecodedAt(data, i);
      var e := DecodeRecord(data[offset..offset + RECORD_SIZE]);
      LoadNext(LocalOnly(before), Decoded(data)[..i], e);
      entities := entities[e.id := Seen(e.kind, e.pos)];
      offset := offset + RECORD_SIZE;
      i := i + 1;
    }
    assert Decoded(data)[..i] == Decoded(data);
  }

  lemma DecodedCount(data: seq<byte>)
    requires |data| == MAX_UDP_PACKET_SIZE
    ensures |Decoded(data)| == Least(From32(data[1..5]), SYNC_CAPACITY)
  {
  }

  lemma LoadNothing<P>(m: Entities<P>)
    ensures Load(m, []) == m
  {
  }

  // The record that the loop takes in its i-th round.
  lemma DecodedAt(data: seq<byte>, i: nat)
    requires |data| == MAX_UDP_PACKET_SIZE && i < |Decoded(data)| <= SYNC_CAPACITY
    ensures HEADER_SIZE + RECORD_SIZE * i + RECORD_SIZE <= |data|
    ensures var e := DecodeRecord(data[HEADER_SIZE + RECORD_SIZE * i..HEADER_SIZE + RECORD_SIZE * i + RECORD_SIZE]);
            Decoded(data)[..i + 1] == Decoded(data)[..i] + [e]
  {
    hide DecodeRecord;
  }

  // ---------- round trip ----------

  lemma RecordRoundTrip(e: Item)
    requires Wide(e)
    ensures DecodeRecord(EncodeRecord(e)) == e
  {
    var r := EncodeRecord(e);
    assert r[..4] == Le32(e.id) && r[4..6] == Le16(e.kind);
    assert r[6..10] == Le32(e.pos.x) && r[10..14] == Le32(e.pos.y);
    Le32RoundTrip(e.id);
    Le16RoundTrip(e.kind);
    Le32RoundTrip(e.pos.x);
    Le32RoundTrip(e.pos.y);
  }

  lemma {:induction false} RecordStands(es: seq<Item>, i: nat)
    requires i < |es|
    ensures RECORD_SIZE * (i + 1) <= |EncodeRecords(es)|
    ensures EncodeRecords(es)[RECORD_SIZE * i..RECORD_SIZE * (i + 1)] == EncodeRecord(es[i])
  {
    var init := es[..|es| - 1];
    if i < |init| {
      RecordStands(init, i);
      assert EncodeRecords(es)[..|EncodeRecords(init)|] == EncodeRecords(init);
      assert EncodeRecords(es)[RECORD_SIZE * i..RECORD_SIZE * (i + 1)]
          == EncodeRecords(init)[RECORD_SIZE * i..RECORD_SIZE * (i + 1)];
    }
  }

  /** Where everything stands in the packet: its type, then how many records there are, then 14 bytes for each
      record, with its id, its type, x and y in this order, all least significant byte first. */
  lemma Layout(es: seq<Item>, i: nat)
    requires i < |es|
    ensures var data, at := EncodeSync(es), 5 + 14 * i;
      && |data| == 5 + 14 * |es|
      && data[0] == 9 && data[1..5] == Le32(|es| % WORD)
      && data[at..at + 4] == Le32(es[i].id) && data[at + 4..at + 6] == Le16(es[i].kind)
      && data[at + 6..at + 10] == Le32(es[i].pos.x) && data[at + 10..at + 14] == Le32(es[i].pos.y)
  {
    hide Le16, Le32, EncodeRecords;
    Le32Size(|es| % WORD);
    RecordStands(es, i);
    RecordParts(es[i]);
    var data, at := EncodeSync(es), 5 + 14 * i;
    var r := EncodeRecord(es[i]);
    assert data[at..at + 14] == EncodeRecords(es)[14 * i..14 * (i + 1)] == r;
    assert data[at..at + 4] == data[at..at + 14][..4] && data[at + 4..at + 6] == data[at..at + 14][4..6];
    assert data[at + 6..at + 10] == data[at..at + 14][6..10] && data[at + 10..at + 14] == data[at..at + 14][10..14];
  }

  lemma Le32Size(n: nat)
    ensures |Le32(n)| == 4
  {
  }

  lemma RecordParts(e: Item)
    ensures var r := EncodeRecord(e);
      && r[..4] == Le32(e.id) && r[4..6] == Le16(e.kind)
      && r[6..10] == Le32(e.pos.x) && r[10..14] == Le32(e.pos.y)
  {
  }

  // Cutting and padding leave the records that fit as they were.
  lemma RecordArrives(es: seq<Item>, i: nat)
    requires i < |es| && i < SYNC_CAPACITY && Wide(es[i])
    ensures RecordAt(Buffered(Cut(EncodeSync(es))), i) == es[i]
  {
    var whole, data := EncodeSync(es), Buffered(Cut(EncodeSync(es)));
    var lo, hi := HEADER_SIZE + RECORD_SIZE * i, HEADER_SIZE + RECORD_SIZE * (i + 1);
    RecordStands(es, i);
    assert whole[lo..hi] == EncodeRecords(es)[RECORD_SIZE * i..RECORD_SIZE * (i + 1)];
    assert data[lo..hi] == whole[lo..hi];
    RecordRoundTrip(es[i]);
  }

  lemma CountArrives(es: seq<Item>)
    ensures ClaimedCount(Buffered(Cut(EncodeSync(es)))) == |es| % WORD
  {
    var data := Buffered(Cut(EncodeSync(es)));
    assert data[1..5] == Le32(|es| % WORD);
    Le32RoundTrip(|es| % WORD);
  }

  /** Encoding any list, cutting it to 1024 bytes, zero-padding and decoding it gives the first 72
      entities in order, or all of them if there are fewer. (A count of 2^32 and more is stored modulo
      2^32.) */
  lemma CodecRoundTrip(es: seq<Item>)
    requires forall e :: e in es ==> Wide(e)
    ensures Decoded(Buffered(Cut(EncodeSync(es)))) == es[..Least(|es| % WORD, SYNC_CAPACITY)]
    ensures |es| < WORD ==> Decoded(Buffered(Cut(EncodeSync(es)))) == Fit(es)
  {
    hide EncodeSync, Cut, Buffered, ClaimedCount, RecordAt;
    var data := Buffered(Cut(EncodeSync(es)));
    CountArrives(es);
    forall i | 0 <= i < Least(|es| % WORD, SYNC_CAPACITY)
      ensures Decoded(data)[i] == es[i]
    {
      RecordArrives(es, i);
    }
  }

  /** The byte path is the typed path: what a client makes of a sync datagram is what module Mirror
      says it makes of the sync. */
  method SyncOverTheWire(before: Entities<Floats>, es: seq<Item>) returns (after: Entities<Floats>)
    requires |es| < WORD && forall e :: e in es ==> Wide(e)
    ensures after == ApplySync(before, Fit(es))
  {
    var payload := QueueRaw(EncodeSync(es));
    CodecRoundTrip(es);
    after := ReceiveSync(before, Buffered(payload));
  }
}
