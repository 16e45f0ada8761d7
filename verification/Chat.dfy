/** Chat over TCP: framed by a client, relayed by the server to the rest of the room, and cut back into
    messages by the receiving clients from whatever part of the stream has come in. */
module Chat {
  import opened Basics
  import opened Bytes

  type Text = seq<byte>

  const CHAT_MESSAGE: byte := 14
  const HEADER_SIZE: nat := 3

  // A frame has room for 16 bits of length; a longer message is framed with its length cut down.
  function Frame(m: Text): (f: seq<byte>)
    ensures |f| == HEADER_SIZE + |m|
  {
    [CHAT_MESSAGE] + Le16(|m|) + m
  }

  function Frames(ms: seq<Text>): seq<byte> {
    if ms == [] then [] else Frame(ms[0]) + Frames(ms[1..])
  }

  // ---------- receiving ----------

  datatype Inbox = Inbox(messages: seq<Text>, rest: seq<byte>)

  // Where the frame at the head of buf ends, by its length field.
  function End(buf: seq<byte>): nat
    requires |buf| >= HEADER_SIZE
  {
    HEADER_SIZE + From16([buf[1], buf[2]])
  }

  // The messages in the bytes that have come in, and the bytes left for later.
  function Received(buf: seq<byte>): Inbox
    decreases |buf|
  {
    if |buf| < HEADER_SIZE then Inbox([], buf)
    else if buf[0] != CHAT_MESSAGE then Received(buf[1..])
    else if |buf| < End(buf) then Inbox([], buf)
    else
      var r := Received(buf[End(buf)..]);
      Inbox([buf[HEADER_SIZE..End(buf)]] + r.messages, r.rest)
  }

  lemma Waits(buf: seq<byte>)
    requires |buf| < HEADER_SIZE || (buf[0] == CHAT_MESSAGE && |buf| < End(buf))
    ensures Received(buf) == Inbox([], buf)
  {
  }

  lemma SkipsByte(buf: seq<byte>)
    requires |buf| >= HEADER_SIZE && buf[0] != CHAT_MESSAGE
    ensures Received(buf) == Received(buf[1..])
  {
  }

  lemma TakesFrame(buf: seq<byte>)
    requires |buf| >= HEADER_SIZE && buf[0] == CHAT_MESSAGE && End(buf) <= |buf|
    ensures Received(buf).messages == [buf[HEADER_SIZE..End(buf)]] + Received(buf[End(buf)..]).messages
    ensures Received(buf).rest == Received(buf[End(buf)..]).rest
  {
  }

  class ChatClient {
    // What the server has sent or will send, not yet read; and what has been written to it.
    var incoming: seq<byte>
    var outgoing: seq<byte>

    constructor (stream: seq<byte>)
      ensures incoming == stream && outgoing == []
    {
      incoming, outgoing := stream, [];
    }

    method SendChatMessage(m: Text)
      modifies this`outgoing
      ensures outgoing == old(outgoing) + Frame(m)
    {
      var packet := [CHAT_MESSAGE] + Le16(|m| % HALF) + m;
      Le16Cut(|m|);
      outgoing := outgoing + packet;
    }

    /** Looks at the first `available` bytes, those that have come in. */
    method ReceiveChatMessages(available: nat) returns (messages: seq<Text>)
      requires available <= |incoming|
      modifies this`incoming
      ensures messages == Received(old(incoming)[..available]).messages
      ensures incoming == Received(old(incoming)[..available]).rest + old(incoming)[available..]
    {
      hide Received, From16;
      messages := [];
      var left := available;
      ghost var all := incoming[..available];
      ghost var later := incoming[available..];
      ghost var buf := all;
      while left >= HEADER_SIZE
        invariant left == |buf| && incoming == buf + later
        invariant messages + Received(buf).messages == Received(all).messages
        invariant Received(buf).rest == Received(all).rest
        decreases left
      {
        if incoming[0] == CHAT_MESSAGE {
          var end := End(incoming);
          assert end == End(buf);
          if left < end {
            break;
          }
          TakesFrame(buf);
          assert incoming[HEADER_SIZE..end] == buf[HEADER_SIZE..end];
          messages := messages + [incoming[HEADER_SIZE..end]];
          incoming, left, buf := incoming[end..], left - end, buf[end..];
        } else {
          SkipsByte(buf);
          incoming, left, buf := incoming[1..], left - 1, buf[1..];
        }
      }
      Waits(buf);
    }
  }

  lemma Le16Cut(n: nat)
    ensures Le16(n % HALF) == Le16(n)
  {
    var q := n / HALF;
    assert n == HALF * q + n % HALF;
    assert n / 256 == 256 * q + n % HALF / 256;
  }

  /** Any stream, cut anywhere: reading the first part and then what was left of it with the second is
      reading all at once. */
  lemma {:induction false} Resumes(a: seq<byte>, b: seq<byte>)
    ensures Received(a + b).messages == Received(a).messages + Received(Received(a).rest + b).messages
    ensures Received(a + b).rest == Received(Received(a).rest + b).rest
    decreases |a|
  {
    hide Received, From16;
    if |a| < HEADER_SIZE {
      Waits(a);
    } else if a[0] != CHAT_MESSAGE {
      SkipsByte(a);
      SkipsByte(a + b);
      assert (a + b)[1..] == a[1..] + b;
      Resumes(a[1..], b);
    } else {
      var end := End(a);
      assert End(a + b) == end;
      if |a| < end {
        Waits(a);
      } else {
        TakesFrame(a);
        TakesFrame(a + b);
        assert (a + b)[HEADER_SIZE..end] == a[HEADER_SIZE..end] && (a + b)[end..] == a[end..] + b;
        Resumes(a[end..], b);
      }
    }
  }

  // ---------- over whole runs of the client ----------

  // Calls of receiveChatMessages; each element says how many of the unread bytes have come in by then.
  function Calls(stream: seq<byte>, arrivals: seq<nat>): Inbox {
    if |arrivals| == 0 then Inbox([], stream)
    else
      var before := Calls(stream, arrivals[..|arrivals| - 1]);
      var n := Least(arrivals[|arrivals| - 1], |before.rest|);
      var now := Received(before.rest[..n]);
      Inbox(before.messages + now.messages, now.rest + before.rest[n..])
  }

  /** Any stream, in any pieces: what the calls have returned so far and what is still to be read make
      up exactly what one call over the whole stream would return. */
  lemma {:induction false} ChunkingIrrelevant(stream: seq<byte>, arrivals: seq<nat>)
    ensures var r := Calls(stream, arrivals);
      && r.messages + Received(r.rest).messages == Received(stream).messages
      && Received(r.rest).rest == Received(stream).rest
  {
    hide Received, Least;
    if |arrivals| > 0 {
      var before := Calls(stream, arrivals[..|arrivals| - 1]);
      ChunkingIrrelevant(stream, arrivals[..|arrivals| - 1]);
      var n := Least(arrivals[|arrivals| - 1], |before.rest|);
      assert before.rest == before.rest[..n] + before.rest[n..];
      Resumes(before.rest[..n], before.rest[n..]);
    }
  }

  predicate AllShort(ms: seq<Text>) {
    forall m :: m in ms ==> |m| < HALF
  }

  lemma OneFrame(m: Text, rest: seq<byte>)
    requires |m| < HALF
    ensures Received(Frame(m) + rest).messages == [m] + Received(rest).messages
    ensures Received(Frame(m) + rest).rest == Received(rest).rest
  {
    var buf := Frame(m) + rest;
    FrameEnd(m);
    assert End(buf) == End(Frame(m));
    TakesFrame(buf);
    assert buf[HEADER_SIZE..End(buf)] == m && buf[End(buf)..] == rest;
  }

  lemma FrameEnd(m: Text)
    requires |m| < HALF
    ensures End(Frame(m)) == |Frame(m)|
  {
    Le16RoundTrip(|m|);
  }

  lemma PartOfFrame(m: Text, n: nat)
    requires |m| < HALF && n < |Frame(m)|
    ensures Received(Frame(m)[..n]) == Inbox([], Frame(m)[..n])
  {
    hide From16;
    FrameEnd(m);
    Waits(Frame(m)[..n]);
  }

  lemma {:induction false} WholeStream(ms: seq<Text>)
    requires AllShort(ms)
    ensures Received(Frames(ms)) == Inbox(ms, [])
  {
    if ms != [] {
      OneFrame(ms[0], Frames(ms[1..]));
      WholeStream(ms[1..]);
    }
  }

  // How many of the messages lie entirely within the first n bytes.
  function Complete(ms: seq<Text>, n: nat): (k: nat)
    ensures k <= |ms| && |Frames(ms[..k])| <= n
    ensures k < |ms| ==> n < |Frames(ms[..k + 1])|
  {
    if ms == [] || n < |Frame(ms[0])| then
      assert ms != [] ==> ms[..1] == [ms[0]] && Frames([ms[0]]) == Frame(ms[0]) + Frames([]);
      0
    else
      var k := Complete(ms[1..], n - |Frame(ms[0])|);
      assert ms[..k + 1][1..] == ms[1..][..k];
      assert k + 1 < |ms| ==> ms[..k + 2][1..] == ms[1..][..k + 1];
      k + 1
  }

  lemma FramesNext(ms: seq<Text>)
    requires ms != []
    ensures Frames(ms) == Frame(ms[0]) + Frames(ms[1..])
  {
  }

  lemma CompleteNext(ms: seq<Text>, n: nat)
    requires ms != []
    ensures Complete(ms, n) == if n < |Frame(ms[0])| then 0 else Complete(ms[1..], n - |Frame(ms[0])|) + 1
  {
  }

  /** One call returns every message that has come in completely, and leaves the first that has not. */
  lemma {:induction false} CallTakesComplete(ms: seq<Text>, n: nat)
    requires AllShort(ms) && n <= |Frames(ms)|
    ensures Received(Frames(ms)[..n]).messages == ms[..Complete(ms, n)]
    ensures Received(Frames(ms)[..n]).rest + Frames(ms)[n..] == Frames(ms[Complete(ms, n)..])
  {
    hide Received, Frame, Frames, Complete;
    if ms == [] {
      NoFrames();
      Waits([]);
    } else {
      var f, tail := Frame(ms[0]), Frames(ms[1..]);
      FramesNext(ms);
      CompleteNext(ms, n);
      if n < |f| {
        PartOfFrame(ms[0], n);
        assert (f + tail)[..n] == f[..n];
        assert f[..n] + (f + tail)[n..] == f + tail;
        assert ms[0..] == ms;
      } else {
        var k := n - |f|;
        CallTakesComplete(ms[1..], k);
        assert (f + tail)[..n] == f + tail[..k] && (f + tail)[n..] == tail[k..];
        OneFrame(ms[0], tail[..k]);
        var c := Complete(ms[1..], k);
        assert ms[..c + 1] == [ms[0]] + ms[1..][..c] && ms[c + 1..] == ms[1..][c..];
      }
    }
  }

  lemma NoFrames()
    ensures Frames([]) == [] && forall n :: Complete([], n) == 0
  {
  }

  lemma CallsNext(stream: seq<byte>, arrivals: seq<nat>)
    requires |arrivals| > 0
    ensures var before := Calls(stream, arrivals[..|arrivals| - 1]);
            var n := Least(arrivals[|arrivals| - 1], |before.rest|);
            var now := Received(before.rest[..n]);
            Calls(stream, arrivals) == Inbox(before.messages + now.messages, now.rest + before.rest[n..])
  {
    hide Received;
  }

  // One more call, when the first k messages have been returned.
  lemma NextCall(ms: seq<Text>, k: nat, n: nat) returns (j: nat)
    requires AllShort(ms) && k <= |ms| && n <= |Frames(ms[k..])|
    ensures k <= j <= |ms|
    ensures ms[..k] + Received(Frames(ms[k..])[..n]).messages == ms[..j]
    ensures Received(Frames(ms[k..])[..n]).rest + Frames(ms[k..])[n..] == Frames(ms[j..])
    ensures n == |Frames(ms[k..])| ==> j == |ms|
  {
    hide Received, Frames, Frame, Complete;
    assert AllShort(ms[k..]);
    CallTakesComplete(ms[k..], n);
    var c := Complete(ms[k..], n);
    if n == |Frames(ms[k..])| { Everything(ms[k..]); }
    j := k + c;
    assert ms[..k] + ms[k..][..c] == ms[..j] && ms[k..][c..] == ms[j..];
  }

  // After any number of calls: the first k messages returned, the frames of the others left.
  lemma {:induction false} CallsInOrder(ms: seq<Text>, arrivals: seq<nat>) returns (k: nat)
    requires AllShort(ms)
    ensures k <= |ms| && Calls(Frames(ms), arrivals) == Inbox(ms[..k], Frames(ms[k..]))
    ensures |arrivals| > 0 && arrivals[|arrivals| - 1] >= |Frames(ms)| ==> k == |ms|
  {
    hide Received, Frames, Frame, Complete, AllShort;
    if |arrivals| == 0 {
      k := 0;
      assert ms[..0] == [] && ms[0..] == ms;
      NoCalls(Frames(ms));
    } else {
      var j := CallsInOrder(ms, arrivals[..|arrivals| - 1]);
      CallsNext(Frames(ms), arrivals);
      var n := Least(arrivals[|arrivals| - 1], |Frames(ms[j..])|);
      FramesOfRest(ms, j);
      k := NextCall(ms, j, n);
    }
  }

  lemma NoCalls(stream: seq<byte>)
    ensures Calls(stream, []) == Inbox([], stream)
  {
  }

  lemma FramesOfRest(ms: seq<Text>, k: nat)
    requires k <= |ms|
    ensures |Frames(ms[k..])| <= |Frames(ms)|
  {
    hide Frames;
    FramesConcat(ms[..k], ms[k..]);
    assert ms == ms[..k] + ms[k..];
  }

  /** On a chat stream, in any pieces: after any number of calls, the messages returned are the first
      ones sent, in order, each once, and the unread bytes are the frames of the others; and after a
      call that finds everything there, they are all the messages sent. */
  lemma ChatInOrder(ms: seq<Text>, arrivals: seq<nat>)
    requires AllShort(ms)
    ensures |Calls(Frames(ms), arrivals).messages| <= |ms|
    ensures var k := |Calls(Frames(ms), arrivals).messages|;
      Calls(Frames(ms), arrivals) == Inbox(ms[..k], Frames(ms[k..]))
    ensures |arrivals| > 0 && arrivals[|arrivals| - 1] >= |Frames(ms)| ==> Calls(Frames(ms), arrivals).messages == ms
  {
    hide Calls, Frames, AllShort;
    var k := CallsInOrder(ms, arrivals);
    assert k == |ms| ==> ms[..k] == ms;
  }

  lemma Everything(ms: seq<Text>)
    ensures Complete(ms, |Frames(ms)|) == |ms|
  {
    hide Complete, Frames;
    var k := Complete(ms, |Frames(ms)|);
    if k < |ms| { FramesOfPrefix(ms, k + 1); }
  }

  lemma FramesOfPrefix(ms: seq<Text>, k: nat)
    requires k <= |ms|
    ensures |Frames(ms[..k])| <= |Frames(ms)|
  {
    hide Frames;
    assert ms == ms[..k] + ms[k..];
    FramesConcat(ms[..k], ms[k..]);
  }

  lemma {:induction false} FramesConcat(a: seq<Text>, b: seq<Text>)
    ensures Frames(a + b) == Frames(a) + Frames(b)
  {
    if a == [] {
      assert a + b == b;
    } else {
      assert (a + b)[1..] == a[1..] + b;
      FramesConcat(a[1..], b);
    }
  }

  lemma {:induction false} ReceivedAreShort(buf: seq<byte>)
    ensures AllShort(Received(buf).messages)
    decreases |buf|
  {
    hide From16;
    if |buf| < HEADER_SIZE {
    } else if buf[0] != CHAT_MESSAGE {
      ReceivedAreShort(buf[1..]);
    } else if End(buf) <= |buf| {
      ReceivedAreShort(buf[End(buf)..]);
    }
  }

  lemma {:induction false} CallsAreShort(stream: seq<byte>, arrivals: seq<nat>)
    ensures AllShort(Calls(stream, arrivals).messages)
  {
    if |arrivals| > 0 {
      var before := Calls(stream, arrivals[..|arrivals| - 1]);
      CallsAreShort(stream, arrivals[..|arrivals| - 1]);
      ReceivedAreShort(before.rest[..Least(arrivals[|arrivals| - 1], |before.rest|)]);
    }
  }

  /** Exactly the messages sent come out, in any pieces once all has arrived, if and only if each is
      shorter than 65536 bytes. */
  lemma ExactIffShort(ms: seq<Text>, arrivals: seq<nat>)
    requires |arrivals| > 0 && arrivals[|arrivals| - 1] >= |Frames(ms)|
    ensures Calls(Frames(ms), arrivals).messages == ms <==> AllShort(ms)
  {
    CallsAreShort(Frames(ms), arrivals);
    if AllShort(ms) {
      ChatInOrder(ms, arrivals);
    }
  }
}
