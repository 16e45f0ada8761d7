/** The client's room requests over TCP: sent once, then polled for while stray room lists drain. */
module TcpRequests {
  import opened Bytes

  // TCPMessageType
  const CONNECT_ERROR: byte := 3
  const LIST_ROOMS: byte := 4
  const LIST_ROOMS_RESPONSE: byte := 5
  const CREATE_ROOM: byte := 6
  const CREATE_ROOM_RESPONSE: byte := 7
  const JOIN_ROOM: byte := 8
  const JOIN_ROOM_RESPONSE: byte := 9

  const ROOM_INFO_SIZE: nat := 12
  const ERROR_SIZE: nat := 64

  datatype RequestState = IDLE | SENT_REQUEST

  // std::optional<int>; false is -1 here.
  datatype Poll<T> = Pending | Done(value: T)

  datatype Step = Step(state: RequestState, incoming: seq<byte>, outcome: Poll<i32>)

  // ---------- what the server sends ----------

  datatype RoomInfo = RoomInfo(id: i32, playerCount: i32, maxPlayers: i32)

  datatype Reply =
    | RoomList(rooms: seq<RoomInfo>)
    | RoomCreated(id: i32)
    | RoomJoined(status: i32)
    | Failure(text: seq<byte>)
    | Other(kind: byte, body: seq<byte>)

  // A message the server can write: the count of a list is an int and an error text is 64 bytes.
  predicate Proper(m: Reply) {
    match m
    case RoomList(rooms) => |rooms| < 0x8000_0000
    case Failure(text) => |text| == ERROR_SIZE
    case Other(kind, _) =>
      kind !in [CONNECT_ERROR, LIST_ROOMS_RESPONSE, CREATE_ROOM_RESPONSE, JOIN_ROOM_RESPONSE]
    case _ => true
  }

  function EncodeRoom(r: RoomInfo): (s: seq<byte>)
    ensures |s| == ROOM_INFO_SIZE
  {
    LeI32(r.id) + LeI32(r.playerCount) + LeI32(r.maxPlayers)
  }

  function EncodeRooms(rooms: seq<RoomInfo>): (s: seq<byte>)
    ensures |s| == ROOM_INFO_SIZE * |rooms|
  {
    if rooms == [] then [] else EncodeRoom(rooms[0]) + EncodeRooms(rooms[1..])
  }

  function Body(m: Reply): seq<byte>
    requires Proper(m)
  {
    match m
    case RoomList(rooms) => LeI32(|rooms|) + EncodeRooms(rooms)
    case RoomCreated(id) => LeI32(id)
    case RoomJoined(status) => LeI32(status)
    case Failure(text) => text
    case Other(_, body) => body
  }

  function Kind(m: Reply): byte {
    match m
    case RoomList(_) => LIST_ROOMS_RESPONSE
    case RoomCreated(_) => CREATE_ROOM_RESPONSE
    case RoomJoined(_) => JOIN_ROOM_RESPONSE
    case Failure(_) => CONNECT_ERROR
    case Other(kind, _) => kind
  }

  function Encode(m: Reply): seq<byte>
    requires Proper(m)
  {
    [Kind(m)] + Body(m)
  }

  // ---------- one poll ----------

  // What is left after a blocking read of n bytes, which stops at the end of the stream.
  function After(s: seq<byte>, n: nat): (r: seq<byte>)
    ensures n > 0 && s != [] ==> |r| < |s|
  {
    if n <= |s| then s[n..] else []
  }

  function Drained(body: seq<byte>): seq<byte> {
    if |body| < 4 then []
    else if FromI32(body[..4]) > 0 then After(body[4..], ROOM_INFO_SIZE * FromI32(body[..4]))
    else body[4..]
  }

  // A message of type `kind` comes in while the client waits for one of type `want`.
  function ReadReply(want: byte, kind: byte, body: seq<byte>): Step {
    if kind == want then
      Step(IDLE, After(body, 4), Done(if |body| < 4 then -1 else FromI32(body[..4])))
    else if kind == CONNECT_ERROR then Step(IDLE, After(body, ERROR_SIZE), Done(-1))
    else if kind == LIST_ROOMS_RESPONSE then Step(SENT_REQUEST, Drained(body), Pending)
    else Step(IDLE, body, Done(-1))
  }

  function Polled(want: byte, incoming: seq<byte>, available: nat): Step {
    if available < 1 || incoming == [] then Step(SENT_REQUEST, incoming, Pending)
    else ReadReply(want, incoming[0], incoming[1..])
  }

  // A call of createRoom or joinRoom; the request goes out if the socket takes it.
  function Called(want: byte, state: RequestState, incoming: seq<byte>, available: nat, writable: bool): Step {
    match state
    case IDLE => if writable then Step(SENT_REQUEST, incoming, Pending) else Step(IDLE, incoming, Done(-1))
    case SENT_REQUEST => Polled(want, incoming, available)
  }

  class TcpClient {
    // What the server has sent or will send, not yet read; and what has been written to it.
    var incoming: seq<byte>
    var outgoing: seq<byte>
    var createRoomState: RequestState
    var joinRoomState: RequestState

    constructor (stream: seq<byte>)
      ensures incoming == stream && outgoing == [] && createRoomState == IDLE && joinRoomState == IDLE
    {
      incoming, outgoing, createRoomState, joinRoomState := stream, [], IDLE, IDLE;
    }

    // A blocking read; at the end of the stream it fails, having taken what there was.
    method Read(n: nat) returns (ok: bool, data: seq<byte>)
      modifies this`incoming
      ensures ok <==> n <= |old(incoming)|
      ensures ok ==> data == old(incoming)[..n]
      ensures incoming == After(old(incoming), n)
    {
      if n <= |incoming| {
        ok, data, incoming := true, incoming[..n], incoming[n..];
      } else {
        ok, data, incoming := false, incoming, [];
      }
    }

    method DrainRoomList()
      modifies this`incoming
      ensures incoming == Drained(old(incoming))
    {
      var ok, data := Read(4);
      if ok {
        var count := FromI32(data);
        if count > 0 {
          ok, data := Read(ROOM_INFO_SIZE * count);
        }
      }
    }

    method CreateRoom(available: nat, writable: bool) returns (r: Poll<i32>)
      requires available <= |incoming|
      modifies this
      ensures Step(createRoomState, incoming, r)
           == Called(CREATE_ROOM_RESPONSE, old(createRoomState), old(incoming), available, writable)
      ensures outgoing == if old(createRoomState) == IDLE && writable then old(outgoing) + [CREATE_ROOM]
                          else old(outgoing)
      ensures joinRoomState == old(joinRoomState)
    {
      if createRoomState == IDLE {
        if !writable {
          return Done(-1);
        }
        outgoing := outgoing + [CREATE_ROOM];
        createRoomState := SENT_REQUEST;
        return Pending;
      }
      if available < 1 {
        return Pending;
      }
      var ok, data := Read(1);
      if data[0] == CREATE_ROOM_RESPONSE {
        ok, data := Read(4);
        createRoomState := IDLE;
        return Done(if ok then FromI32(data) else -1);
      } else if data[0] == CONNECT_ERROR {
        ok, data := Read(ERROR_SIZE);
        createRoomState := IDLE;
        return Done(-1);
      } else if data[0] == LIST_ROOMS_RESPONSE {
        DrainRoomList();
        return Pending;
      } else {
        createRoomState := IDLE;
        return Done(-1);
      }
    }

    method JoinRoom(roomId: i32, available: nat, writable: bool) returns (r: Poll<bool>)
      requires available <= |incoming|
      modifies this
      ensures var s := Called(JOIN_ROOM_RESPONSE, old(joinRoomState), old(incoming), available, writable);
              && joinRoomState == s.state && incoming == s.incoming
              && r == (if s.outcome.Pending? then Pending else Done(s.outcome.value == 1))
      ensures outgoing == if old(joinRoomState) == IDLE && writable then old(outgoing) + [JOIN_ROOM] + LeI32(roomId)
                          else old(outgoing)
      ensures createRoomState == old(createRoomState)
    {
      if joinRoomState == IDLE {
        if !writable {
          return Done(false);
        }
        outgoing := outgoing + [JOIN_ROOM] + LeI32(roomId);
        joinRoomState := SENT_REQUEST;
        return Pending;
      }
      if available < 1 {
        return Pending;
      }
      var ok, data := Read(1);
      if data[0] == JOIN_ROOM_RESPONSE {
        ok, data := Read(4);
        joinRoomState := IDLE;
        return Done(ok && FromI32(data) == 1);
      } else if data[0] == CONNECT_ERROR {
        ok, data := Read(ERROR_SIZE);
        joinRoomState := IDLE;
        return Done(false);
      } else if data[0] == LIST_ROOMS_RESPONSE {
        DrainRoomList();
        return Pending;
      } else {
        joinRoomState := IDLE;
        return Done(false);
      }
    }
  }

  // ---------- whole requests ----------

  // Polling until there is an outcome; each element says how many bytes have come in by that poll.
  function Polls(want: byte, incoming: seq<byte>, arrivals: seq<nat>): (s: Step)
    ensures s.outcome.Pending? ==> s.state == SENT_REQUEST
  {
    if |arrivals| == 0 then Step(SENT_REQUEST, incoming, Pending)
    else
      var s := Polls(want, incoming, arrivals[..|arrivals| - 1]);
      if s.outcome.Done? then s else Called(want, s.state, s.incoming, arrivals[|arrivals| - 1], true)
  }

  // The polls that find something to read.
  function Ready(arrivals: seq<nat>): nat {
    if |arrivals| == 0 then 0
    else
      var n := Ready(arrivals[..|arrivals| - 1]);
      if arrivals[|arrivals| - 1] < 1 then n else n + 1
  }

  predicate AllProper(lists: seq<seq<RoomInfo>>) {
    forall l :: l in lists ==> Proper(RoomList(l))
  }

  function Lists(lists: seq<seq<RoomInfo>>, rest: seq<byte>): seq<byte>
    requires AllProper(lists)
  {
    if lists == [] then rest else Encode(RoomList(lists[0])) + Lists(lists[1..], rest)
  }

  lemma NothingCame(want: byte, incoming: seq<byte>)
    ensures Polled(want, incoming, 0) == Step(SENT_REQUEST, incoming, Pending)
  {
  }

  lemma DrainedList(count: seq<byte>, rooms: seq<byte>, rest: seq<byte>)
    requires |count| == 4 && FromI32(count) >= 0 && |rooms| == ROOM_INFO_SIZE * FromI32(count)
    ensures Drained(count + rooms + rest) == rest
  {
    hide FromI32;
    var body := count + rooms + rest;
    assert body[..4] == count && body[4..] == rooms + rest;
    assert (rooms + rest)[|rooms|..] == rest;
  }

  lemma ListIsDrained(want: byte, list: seq<RoomInfo>, rest: seq<byte>, available: nat)
    requires want != LIST_ROOMS_RESPONSE && want != CONNECT_ERROR
    requires Proper(RoomList(list)) && available > 0
    ensures Polled(want, Encode(RoomList(list)) + rest, available) == Step(SENT_REQUEST, rest, Pending)
  {
    hide LeI32, FromI32, EncodeRooms, Drained;
    assert (Encode(RoomList(list)) + rest)[1..] == LeI32(|list|) + EncodeRooms(list) + rest;
    LeI32RoundTrip(|list|);
    DrainedList(LeI32(|list|), EncodeRooms(list), rest);
  }

  lemma AnswerIsRead(want: byte, answer: i32, rest: seq<byte>, available: nat)
    requires available > 0
    ensures Polled(want, [want] + LeI32(answer) + rest, available) == Step(IDLE, rest, Done(answer))
  {
    var incoming := [want] + LeI32(answer) + rest;
    LeI32RoundTrip(answer);
    assert incoming[1..][..4] == LeI32(answer) && incoming[1..][4..] == rest;
  }

  /** A first call sends the request and waits, from where the polls go on; if the socket does not take it, the
      request has failed and the next call is a first one again. Nothing is read. */
  lemma RequestBegins(want: byte, incoming: seq<byte>, available: nat)
    ensures Called(want, IDLE, incoming, available, true) == Polls(want, incoming, [])
    ensures var s := Called(want, IDLE, incoming, available, false);
            s.state == IDLE && s.incoming == incoming && s.outcome == Done(-1)
  {
  }

  /** However the bytes come in and however many stray room lists are ahead, polling takes one message
      per poll that finds any, stays pending through the lists, then gives exactly the server's answer
      and leaves the stream where the next message starts. */
  lemma {:induction false} AnswerIsFound(want: byte, lists: seq<seq<RoomInfo>>, answer: i32, rest: seq<byte>,
                                         arrivals: seq<nat>)
    requires want == CREATE_ROOM_RESPONSE || want == JOIN_ROOM_RESPONSE
    requires AllProper(lists)
    ensures Polls(want, Lists(lists, [want] + LeI32(answer) + rest), arrivals)
         == if Ready(arrivals) <= |lists|
            then Step(SENT_REQUEST, Lists(lists[Ready(arrivals)..], [want] + LeI32(answer) + rest), Pending)
            else Step(IDLE, rest, Done(answer))
  {
    hide Polled, Encode;
    var stream := [want] + LeI32(answer) + rest;
    if |arrivals| > 0 {
      var init, last := arrivals[..|arrivals| - 1], arrivals[|arrivals| - 1];
      AnswerIsFound(want, lists, answer, rest, init);
      var n := Ready(init);
      if last < 1 {
        NothingCame(want, Polls(want, Lists(lists, stream), init).incoming);
      } else if n < |lists| {
        assert lists[n] in lists && lists[n..][1..] == lists[n + 1..];
        assert AllProper(lists[n + 1..]);
        ListIsDrained(want, lists[n], Lists(lists[n + 1..], stream), last);
      } else if n == |lists| {
        AnswerIsRead(want, answer, rest, last);
      }
    }
  }

  /** What a poll does with any message ahead of the answer: it keeps waiting exactly for room lists;
      anything else ends the request with a failure, and the stream is still aligned with the messages
      exactly if that message was an error or has no body. */
  lemma OnlyRoomListsDrain(want: byte, m: Reply, rest: seq<byte>, available: nat)
    requires want == CREATE_ROOM_RESPONSE || want == JOIN_ROOM_RESPONSE
    requires Proper(m) && Kind(m) != want && available > 0
    ensures var s := Polled(want, Encode(m) + rest, available);
      && (s.outcome == Pending <==> m.RoomList?)
      && (s.outcome == Done(-1) <==> !m.RoomList?)
      && (s.state == SENT_REQUEST <==> m.RoomList?)
      && (s.incoming == rest <==> m.RoomList? || m.Failure? || Body(m) == [])
  {
    var s := Polled(want, Encode(m) + rest, available);
    if m.RoomList? {
      ListIsDrained(want, m.rooms, rest, available);
    } else {
      assert (Encode(m) + rest)[1..] == Body(m) + rest;
      assert (Body(m) + rest)[|Body(m)|..] == rest;
      assert |Body(m) + rest| == |Body(m)| + |rest|;
    }
  }
}
