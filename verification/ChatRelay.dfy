/** The server's side of the chat: it reads each member's stream and writes every message that is not
    empty, under the name of who said it, to the others in the room. */
module ChatRelay {
  import opened Bytes
  import opened Chat

  const SEPARATOR: Text := [58, 32]
  const UNKNOWN: Text := [85, 110, 107, 110, 111, 119, 110]

  function NameOf(names: map<nat, Text>, id: nat): Text {
    if id in names then names[id] else UNKNOWN
  }

  function Labelled(name: Text, text: Text): (m: Text)
    ensures |m| == |name| + 2 + |text|
  {
    name + SEPARATOR + text
  }

  // A message goes to the others who are in its room.
  predicate Hears(rooms: map<nat, nat>, sender: nat, room: nat, q: nat) {
    q != sender && q in rooms && rooms[q] == room
  }

  // The messages in the stream of one member; the ones without text are dropped, and so are the bytes
  // of its other requests. A message cut off by the end of the stream is lost.
  function Spoken(stream: seq<byte>): seq<Text>
    decreases |stream|
  {
    if stream == [] then []
    else if stream[0] != CHAT_MESSAGE then Spoken(stream[1..])
    else if |stream| < HEADER_SIZE || |stream| < End(stream) then []
    else
      var rest := Spoken(stream[End(stream)..]);
      if End(stream) == HEADER_SIZE then rest else [stream[HEADER_SIZE..End(stream)]] + rest
  }

  // What the connections have been written once a frame has gone to all who hear it.
  function Written(sockets: map<nat, seq<byte>>, rooms: map<nat, nat>, sender: nat, room: nat, m: Text)
    : map<nat, seq<byte>>
  {
    map q | q in sockets :: if Hears(rooms, sender, room, q) then sockets[q] + Frame(m) else sockets[q]
  }

  function AllLabelled(name: Text, texts: seq<Text>): (ms: seq<Text>)
    ensures |ms| == |texts|
  {
    seq(|texts|, i requires 0 <= i < |texts| => Labelled(name, texts[i]))
  }

  class ChatServer {
    // What has been written to each connection.
    var playerSockets: map<nat, seq<byte>>
    var playerUsernames: map<nat, Text>
    var playerRooms: map<nat, nat>

    /** Writes one message to everybody else in the room and to nobody besides. */
    method Relay(sender: nat, room: nat, text: Text)
      modifies this`playerSockets
      ensures playerSockets == Written(old(playerSockets), playerRooms, sender, room,
                                       Labelled(NameOf(playerUsernames, sender), text))
    {
      hide Frame, Labelled;
      var m := Labelled(NameOf(playerUsernames, sender), text);
      var packet := Frame(m);
      ghost var before := playerSockets;
      var todo := playerSockets.Keys;
      while todo != {}
        invariant todo <= playerSockets.Keys == before.Keys
        invariant forall q :: q in before ==>
          playerSockets[q] == if q !in todo && Hears(playerRooms, sender, room, q) then before[q] + packet
                              else before[q]
      {
        var q :| q in todo;
        if Hears(playerRooms, sender, room, q) {
          playerSockets := playerSockets[q := playerSockets[q] + packet];
        }
        todo := todo - {q};
      }
    }

    // Since some moment, these texts of the sender have been relayed.
    ghost predicate Told(before: map<nat, seq<byte>>, sender: nat, room: nat, texts: seq<Text>)
      reads this
    {
      && playerSockets.Keys == before.Keys
      && forall q :: q in before ==>
           if Hears(playerRooms, sender, room, q)
           then playerSockets[q] == before[q] + Frames(AllLabelled(NameOf(playerUsernames, sender), texts))
           else playerSockets[q] == before[q]
    }

    /** The whole stream of one member, up to its end. */
    method HandleInRoomClient(stream: seq<byte>, sender: nat, room: nat)
      modifies this`playerSockets
      ensures Told(old(playerSockets), sender, room, Spoken(stream))
    {
      hide Frame, Frames, AllLabelled;
      ghost var before, said := playerSockets, [];
      var rest := stream;
      NothingTold(sender, room);
      while rest != []
        invariant said + Spoken(rest) == Spoken(stream)
        invariant Told(before, sender, room, said)
        decreases |rest|
      {
        if rest[0] != CHAT_MESSAGE {
          rest := rest[1..];
        } else if |rest| < HEADER_SIZE || |rest| < End(rest) {
          rest := [];
        } else {
          var text := rest[HEADER_SIZE..End(rest)];
          rest := rest[End(rest)..];
          if text != [] {
            ghost var middle := playerSockets;
            Relay(sender, room, text);
            ToldMore(before, middle, sender, room, said, text);
            said := said + [text];
          }
        }
      }
      assert said == Spoken(stream);
    }

    lemma NothingTold(sender: nat, room: nat)
      ensures Told(playerSockets, sender, room, [])
    {
    }

    lemma ToldMore(before: map<nat, seq<byte>>, middle: map<nat, seq<byte>>, sender: nat, room: nat,
                   texts: seq<Text>, text: Text)
      requires middle.Keys == before.Keys
      requires forall q :: q in before ==>
        if Hears(playerRooms, sender, room, q)
        then middle[q] == before[q] + Frames(AllLabelled(NameOf(playerUsernames, sender), texts))
        else middle[q] == before[q]
      requires playerSockets == Written(middle, playerRooms, sender, room,
                                        Labelled(NameOf(playerUsernames, sender), text))
      ensures Told(before, sender, room, texts + [text])
    {
      hide Frame, Frames, Labelled, AllLabelled, Hears;
      var name := NameOf(playerUsernames, sender);
      LabelledMore(name, texts, text);
      forall q | q in before && Hears(playerRooms, sender, room, q)
        ensures playerSockets[q] == before[q] + Frames(AllLabelled(name, texts + [text]))
      {
        Associates(before[q], Frames(AllLabelled(name, texts)), Frame(Labelled(name, text)));
      }
    }
  }

  lemma Associates(a: seq<byte>, b: seq<byte>, c: seq<byte>)
    ensures a + b + c == a + (b + c)
  {
  }

  lemma LabelledMore(name: Text, texts: seq<Text>, text: Text)
    ensures Frames(AllLabelled(name, texts + [text]))
         == Frames(AllLabelled(name, texts)) + Frame(Labelled(name, text))
  {
    hide Frame, Labelled, Frames;
    assert AllLabelled(name, texts + [text]) == AllLabelled(name, texts) + [Labelled(name, text)];
    FramesMore(AllLabelled(name, texts), Labelled(name, text));
  }

  lemma FramesMore(ms: seq<Text>, m: Text)
    ensures Frames(ms + [m]) == Frames(ms) + Frame(m)
  {
    hide Frame;
    FramesConcat(ms, [m]);
    assert Frames([m]) == Frame(m) + Frames([]);
  }

  // ---------- one round of a member's thread ----------

  // What a thread does with the request at the head of its stream: it may relay a text.
  function Rest(stream: seq<byte>): (rest: seq<byte>)
    requires stream != []
    ensures |rest| < |stream|
  {
    if stream[0] != CHAT_MESSAGE then stream[1..]
    else if |stream| < HEADER_SIZE || |stream| < End(stream) then []
    else stream[End(stream)..]
  }

  function Texts(stream: seq<byte>): seq<Text>
    requires stream != []
  {
    if stream[0] != CHAT_MESSAGE || |stream| < HEADER_SIZE || |stream| < End(stream) then []
    else if End(stream) == HEADER_SIZE then []
    else [stream[HEADER_SIZE..End(stream)]]
  }

  lemma SpokenNext(stream: seq<byte>)
    requires stream != []
    ensures Spoken(stream) == Texts(stream) + Spoken(Rest(stream))
  {
  }

  function NotEmpty(ms: seq<Text>): seq<Text> {
    if ms == [] then [] else if ms[0] == [] then NotEmpty(ms[1..]) else [ms[0]] + NotEmpty(ms[1..])
  }

  /** The server hears, of what a member sends, exactly the messages that are not empty. */
  lemma {:induction false} SpokenFrames(ms: seq<Text>)
    requires AllShort(ms)
    ensures Spoken(Frames(ms)) == NotEmpty(ms)
  {
    if ms != [] {
      var f, rest := Frame(ms[0]), Frames(ms[1..]);
      FrameEnd(ms[0]);
      assert Frames(ms) == f + rest && End(f + rest) == End(f);
      assert (f + rest)[|f|..] == rest && (f + rest)[HEADER_SIZE..|f|] == ms[0];
      SpokenFrames(ms[1..]);
    }
  }

  // ---------- what happens in the rooms ----------

  // In the order in which the server takes it.
  datatype Happening =
    | Entered(who: nat, room: nat, name: Text)
    | Left(who: nat)
    | Said(who: nat, text: Text)

  datatype Seat = Nowhere | In(room: nat, name: Text)

  // Where a player is: in the room it entered, until it leaves.
  function SeatOf(log: seq<Happening>, p: nat): Seat {
    if log == [] then Nowhere
    else
      var before, last := SeatOf(log[..|log| - 1], p), log[|log| - 1];
      if last.who != p then before
      else match last
        case Entered(_, room, name) => In(room, name)
        case Left(_) => Nowhere
        case Said(_, _) => before
  }

  predicate Together(a: Seat, b: Seat) {
    a.In? && b.In? && a.room == b.room
  }

  // What q is to be told, in order: what others say while they and q are in one room, each text under the
  // name of who says it.
  function Heard(log: seq<Happening>, q: nat): seq<Text> {
    if log == [] then []
    else
      var init, last := log[..|log| - 1], log[|log| - 1];
      var before := Heard(init, q);
      if last.Said? && last.who != q && Together(SeatOf(init, last.who), SeatOf(init, q))
      then before + [Labelled(SeatOf(init, last.who).name, last.text)] else before
  }

  // What one player has said, in order.
  function SaidBy(log: seq<Happening>, p: nat): seq<Text> {
    if log == [] then []
    else
      var before, last := SaidBy(log[..|log| - 1], p), log[|log| - 1];
      if last.Said? && last.who == p then before + [last.text] else before
  }

  lemma SeatNext(log: seq<Happening>, h: Happening, p: nat)
    ensures SeatOf(log + [h], p)
         == if h.who != p || h.Said? then SeatOf(log, p) else if h.Left? then Nowhere else In(h.room, h.name)
  {
    assert (log + [h])[..|log|] == log;
  }

  lemma HeardNext(log: seq<Happening>, h: Happening, q: nat)
    ensures Heard(log + [h], q)
         == if h.Said? && h.who != q && Together(SeatOf(log, h.who), SeatOf(log, q))
            then Heard(log, q) + [Labelled(SeatOf(log, h.who).name, h.text)] else Heard(log, q)
  {
    hide SeatOf, Labelled;
    assert (log + [h])[..|log|] == log;
  }

  lemma SaidByNext(log: seq<Happening>, h: Happening, p: nat)
    ensures SaidBy(log + [h], p) == if h.Said? && h.who == p then SaidBy(log, p) + [h.text] else SaidBy(log, p)
  {
    assert (log + [h])[..|log|] == log;
  }

  // ---------- all threads at once ----------

  // The messages each player sends, the part of its stream that its thread has still to read, the server's
  // tables, what has been written to each connection, and what has happened. A message is written to all
  // its hearers under one lock.
  datatype Server = Server(sent: map<nat, seq<Text>>, streams: map<nat, seq<byte>>, rooms: map<nat, nat>,
                           names: map<nat, Text>, sockets: map<nat, seq<byte>>, log: seq<Happening>)

  // A new player with the messages it is going to send enters a room, the thread of a member takes its next
  // request, or a member's connection breaks, with whatever its thread has not read.
  datatype Step =
    | Enter(p: nat, room: nat, name: Text, messages: seq<Text>)
    | Turn(p: nat)
    | Leave(p: nat)

  predicate Enabled(r: Server, e: Step) {
    match e
    case Enter(p, _, _, messages) => p !in r.sent && AllShort(messages)
    case Turn(p) => p in r.rooms && p in r.streams && r.streams[p] != []
    case Leave(p) => p in r.rooms
  }

  function Next(r: Server, e: Step): Server
    requires Enabled(r, e)
  {
    match e
    case Enter(p, room, name, messages) =>
      Server(r.sent[p := messages], r.streams[p := Frames(messages)], r.rooms[p := room], r.names[p := name],
             r.sockets[p := []], r.log + [Entered(p, room, name)])
    case Turn(p) =>
      var texts, streams := Texts(r.streams[p]), r.streams[p := Rest(r.streams[p])];
      if texts == [] then r.(streams := streams)
      else
        var m := Labelled(NameOf(r.names, p), texts[0]);
        r.(streams := streams, sockets := Written(r.sockets, r.rooms, p, r.rooms[p], m),
           log := r.log + [Said(p, texts[0])])
    case Leave(p) => r.(rooms := r.rooms - {p}, names := r.names - {p}, log := r.log + [Left(p)])
  }

  const NOBODY := Server(map[], map[], map[], map[], map[], [])

  ghost predicate Run(states: seq<Server>, steps: seq<Step>) {
    && |states| == |steps| + 1
    && states[0] == NOBODY
    && forall i :: 0 <= i < |steps| ==> Enabled(states[i], steps[i]) && states[i + 1] == Next(states[i], steps[i])
  }

  function At<T>(m: map<nat, seq<T>>, p: nat): seq<T> {
    if p in m then m[p] else []
  }

  predicate Known(r: Server) {
    r.rooms.Keys == r.names.Keys && r.rooms.Keys <= r.sent.Keys == r.streams.Keys == r.sockets.Keys
  }

  // The tables say where each player is.
  predicate Seated(r: Server, p: nat) {
    SeatOf(r.log, p) == if p in r.rooms then In(r.rooms[p], NameOf(r.names, p)) else Nowhere
  }

  // Said so far and still to be said make up what was sent.
  predicate Voiced(r: Server, p: nat) {
    SaidBy(r.log, p) + Spoken(At(r.streams, p)) == NotEmpty(At(r.sent, p))
  }

  // What has been written to a connection, since it was made, is what its player heard.
  predicate Served(r: Server, q: nat) {
    At(r.sockets, q) == Frames(Heard(r.log, q))
  }

  ghost predicate Faithful(r: Server) {
    && Known(r)
    && (forall p :: Seated(r, p))
    && (forall p :: Voiced(r, p))
    && (forall q :: Served(r, q))
  }

  lemma NextKnown(r: Server, e: Step)
    requires Known(r) && Enabled(r, e)
    ensures Known(Next(r, e))
  {
    hide Frames, Frame, Labelled, Texts, Rest, Hears;
  }

  lemma NextSeated(r: Server, e: Step, p: nat)
    requires Known(r) && Seated(r, p) && Enabled(r, e)
    ensures Seated(Next(r, e), p)
  {
    hide SeatOf, Frames, Written, Labelled, Texts, Rest;
    match e
    case Enter(who, room, name, _) => SeatNext(r.log, Entered(who, room, name), p);
    case Turn(who) =>
      if Texts(r.streams[who]) != [] { SeatNext(r.log, Said(who, Texts(r.streams[who])[0]), p); }
    case Leave(who) => SeatNext(r.log, Left(who), p);
  }

  lemma NextVoiced(r: Server, e: Step, p: nat)
    requires Known(r) && Voiced(r, p) && Enabled(r, e)
    ensures Voiced(Next(r, e), p)
  {
    hide SaidBy, Spoken, NotEmpty, Frames, Written, Labelled, Rest, Texts;
    match e
    case Enter(who, room, name, messages) =>
      SaidByNext(r.log, Entered(who, room, name), p);
      SpokenFrames(messages);
      SilentBefore(r, p);
    case Turn(who) => TurnVoiced(r, who, p);
    case Leave(who) => SaidByNext(r.log, Left(who), p);
  }

  // Who has not entered has not said anything.
  lemma SilentBefore(r: Server, p: nat)
    requires Known(r) && Voiced(r, p)
    ensures p !in r.sent ==> SaidBy(r.log, p) == []
  {
  }

  lemma TurnVoiced(r: Server, who: nat, p: nat)
    requires Known(r) && Voiced(r, p) && Enabled(r, Turn(who))
    ensures Voiced(Next(r, Turn(who)), p)
  {
    hide Spoken, SaidBy, NotEmpty, Rest, Written, Labelled;
    var stream := r.streams[who];
    SpokenNext(stream);
    var texts, said := Texts(stream), SaidBy(r.log, p);
    if texts != [] {
      SaidByNext(r.log, Said(who, texts[0]), p);
      assert said + [texts[0]] + Spoken(Rest(stream)) == said + (texts + Spoken(Rest(stream)));
    } else {
      assert [] + Spoken(Rest(stream)) == Spoken(Rest(stream));
    }
  }

  lemma NextServed(r: Server, e: Step, q: nat)
    requires Known(r) && (forall p :: Seated(r, p)) && Served(r, q) && Enabled(r, e)
    ensures Served(Next(r, e), q)
  {
    hide Heard, SeatOf, Frames, Labelled, Frame, Rest, Texts;
    match e
    case Enter(who, room, name, _) => HeardNext(r.log, Entered(who, room, name), q);
    case Turn(who) => if Texts(r.streams[who]) != [] { TurnServed(r, who, Texts(r.streams[who])[0], q); }
    case Leave(who) => HeardNext(r.log, Left(who), q);
  }

  // Whoever hears a message is a member and has a connection.
  lemma TurnServed(r: Server, who: nat, text: Text, q: nat)
    requires Known(r) && Seated(r, who) && Seated(r, q) && Served(r, q) && who in r.rooms
    ensures At(Written(r.sockets, r.rooms, who, r.rooms[who], Labelled(NameOf(r.names, who), text)), q)
         == Frames(Heard(r.log + [Said(who, text)], q))
  {
    hide Heard, SeatOf, Frames, Labelled, Frame;
    HeardNext(r.log, Said(who, text), q);
    FramesMore(Heard(r.log, q), Labelled(NameOf(r.names, who), text));
  }

  lemma NextFaithful(r: Server, e: Step)
    requires Faithful(r) && Enabled(r, e)
    ensures Faithful(Next(r, e))
  {
    hide Known, Seated, Voiced, Served, Next;
    NextKnown(r, e);
    forall p ensures Seated(Next(r, e), p) && Voiced(Next(r, e), p) && Served(Next(r, e), p) {
      NextSeated(r, e, p);
      NextVoiced(r, e, p);
      NextServed(r, e, p);
    }
  }

  lemma {:induction false} RunFaithful(states: seq<Server>, steps: seq<Step>, k: nat)
    requires Run(states, steps) && k <= |steps|
    ensures Faithful(states[k])
  {
    hide Faithful, Next;
    if k > 0 {
      RunFaithful(states, steps, k - 1);
      NextFaithful(states[k - 1], steps[k - 1]);
    } else {
      NobodyFaithful();
    }
  }

  lemma NobodyFaithful()
    ensures Faithful(NOBODY)
  {
  }

  // Every message someone hears fits a frame under the name of who said it.
  ghost predicate Fitting(log: seq<Happening>, q: nat) {
    forall i :: 0 <= i < |log| && Reaches(log, i, q) ==>
      |SeatOf(log[..i], log[i].who).name| + 2 + |log[i].text| < HALF
  }

  // The i-th happening is a message that q hears.
  predicate Reaches(log: seq<Happening>, i: nat, q: nat)
    requires i < |log|
  {
    log[i].Said? && log[i].who != q && Together(SeatOf(log[..i], log[i].who), SeatOf(log[..i], q))
  }

  // The player entered this room under this name and has stayed there.
  ghost predicate CameIn(log: seq<Happening>, p: nat, room: nat, name: Text) {
    exists i :: 0 <= i < |log| && log[i] == Entered(p, room, name) && StaysPut(log, p, i + 1)
  }

  lemma CameInNext(log: seq<Happening>, h: Happening, p: nat, room: nat, name: Text)
    ensures CameIn(log + [h], p, room, name)
       <==> if h.who != p || h.Said? then CameIn(log, p, room, name) else h == Entered(p, room, name)
  {
    var all := log + [h];
    assert all[|log|] == h && forall j :: 0 <= j < |log| ==> all[j] == log[j];
    if h == Entered(p, room, name) {
      assert all[|log|] == Entered(p, room, name) && StaysPut(all, p, |log| + 1);
    }
    if (h.who != p || h.Said?) && CameIn(log, p, room, name) {
      var i :| 0 <= i < |log| && log[i] == Entered(p, room, name) && StaysPut(log, p, i + 1);
      assert all[i] == Entered(p, room, name) && StaysPut(all, p, i + 1);
    }
    if CameIn(all, p, room, name) {
      var i :| 0 <= i < |all| && all[i] == Entered(p, room, name) && StaysPut(all, p, i + 1);
      if i < |log| { assert log[i] == Entered(p, room, name) && StaysPut(log, p, i + 1); }
    }
  }

  /** A player is in a room under a name if and only if it entered that room under that name and has neither
      left nor entered another since. */
  lemma {:induction false} SeatIff(log: seq<Happening>, p: nat, room: nat, name: Text)
    ensures SeatOf(log, p) == In(room, name) <==> CameIn(log, p, room, name)
  {
    hide SeatOf, CameIn;
    if log != [] {
      var init, last := log[..|log| - 1], log[|log| - 1];
      SeatIff(init, p, room, name);
      SeatNext(init, last, p);
      CameInNext(init, last, p, room, name);
      assert log == init + [last];
    } else {
      NobodyCameIn(p, room, name);
    }
  }

  lemma NobodyCameIn(p: nat, room: nat, name: Text)
    ensures SeatOf([], p) == Nowhere && !CameIn([], p, room, name)
  {
  }

  // From index i on, the player neither enters nor leaves.
  ghost predicate StaysPut(log: seq<Happening>, p: nat, i: nat) {
    forall j :: i <= j < |log| && log[j].who == p ==> log[j].Said?
  }

  // A message shown is the name of who said it, a colon, a space and the text.
  predicate ShownAs(m: Text, name: Text, text: Text) {
    && |m| == |name| + 2 + |text| && m[..|name|] == name
    && m[|name|] == 58 && m[|name| + 1] == 32 && m[|name| + 2..] == text
  }

  // This message is what the player hears of the k-th happening.
  predicate AsSaid(log: seq<Happening>, q: nat, k: nat, m: Text) {
    k < |log| && Reaches(log, k, q) && ShownAs(m, SeatOf(log[..k], log[k].who).name, log[k].text)
  }

  // The messages that are heard of a log, and where in it they were said.
  ghost predicate Whence(log: seq<Happening>, q: nat, ks: seq<nat>) {
    && |ks| == |Heard(log, q)|
    && (forall i, j :: 0 <= i < j < |ks| ==> ks[i] < ks[j])
    && (forall i :: 0 <= i < |ks| ==> ks[i] < |log| && AsSaid(log, q, ks[i], Heard(log, q)[i]))
    && (forall k: nat :: k < |log| && Reaches(log, k, q) ==> k in ks)
  }

  lemma ReachesInit(log: seq<Happening>, q: nat, k: nat, m: Text)
    requires k + 1 < |log|
    ensures Reaches(log[..|log| - 1], k, q) == Reaches(log, k, q)
    ensures AsSaid(log[..|log| - 1], q, k, m) == AsSaid(log, q, k, m)
  {
    hide SeatOf, Together, ShownAs;
    assert log[..|log| - 1][..k] == log[..k];
  }

  lemma HeardLast(log: seq<Happening>, q: nat)
    requires log != []
    ensures var n, before := |log| - 1, Heard(log[..|log| - 1], q);
      if Reaches(log, n, q)
      then && |Heard(log, q)| == |before| + 1 && Heard(log, q)[..|before|] == before
           && AsSaid(log, q, n, Heard(log, q)[|before|])
      else Heard(log, q) == before
  {
    hide SeatOf;
  }

  // One more happening that does not reach the player.
  lemma WhenceQuiet(log: seq<Happening>, q: nat, ks: seq<nat>)
    requires log != [] && Whence(log[..|log| - 1], q, ks) && !Reaches(log, |log| - 1, q)
    ensures Whence(log, q, ks)
  {
    hide Heard, Reaches, AsSaid;
    HeardLast(log, q);
    var n := |log| - 1;
    forall k: nat, m | k < n ensures AsSaid(log[..n], q, k, m) == AsSaid(log, q, k, m) {
      ReachesInit(log, q, k, m);
    }
    forall k: nat | k < |log| && Reaches(log, k, q) ensures k in ks {
      ReachesInit(log, q, k, []);
    }
  }

  // One more that does.
  lemma WhenceMore(log: seq<Happening>, q: nat, ks: seq<nat>)
    requires log != [] && Whence(log[..|log| - 1], q, ks) && Reaches(log, |log| - 1, q)
    ensures Whence(log, q, ks + [|log| - 1])
  {
    hide Heard, Reaches, AsSaid;
    var n := |log| - 1;
    var init, ks' := log[..n], ks + [n];
    HeardLast(log, q);
    forall k: nat, m | k < n ensures AsSaid(init, q, k, m) == AsSaid(log, q, k, m) {
      ReachesInit(log, q, k, m);
    }
    forall k: nat | k < |log| && Reaches(log, k, q) ensures k in ks' {
      if k < n {
        assert Reaches(init, k, q) by { ReachesInit(log, q, k, []); }
        assert k in ks;
      }
    }
    forall i | 0 <= i < |ks'| ensures AsSaid(log, q, ks'[i], Heard(log, q)[i]) {
      if i < |ks| { assert Heard(log, q)[i] == Heard(init, q)[i]; }
    }
  }

  /** A player hears exactly what others say in its room while it is there, in this order, each with who said
      it in front. */
  lemma {:induction false} HeardIsSaid(log: seq<Happening>, q: nat) returns (ks: seq<nat>)
    ensures Whence(log, q, ks)
  {
    hide Heard, Reaches, AsSaid;
    if log == [] {
      ks := [];
      NothingHeard(q);
    } else {
      ks := HeardIsSaid(log[..|log| - 1], q);
      if Reaches(log, |log| - 1, q) {
        WhenceMore(log, q, ks);
        ks := ks + [|log| - 1];
      } else {
        WhenceQuiet(log, q, ks);
      }
    }
  }

  lemma NothingHeard(q: nat)
    ensures Heard([], q) == []
  {
  }

  lemma {:induction false} HeardIsShort(log: seq<Happening>, q: nat)
    ensures AllShort(Heard(log, q)) <==> Fitting(log, q)
  {
    hide SeatOf;
    if log != [] {
      var n := |log| - 1;
      var init, last := log[..n], log[n];
      HeardIsShort(init, q);
      FittingNext(log, q);
      var before := Heard(init, q);
      if Reaches(log, n, q) {
        var m := Labelled(SeatOf(init, last.who).name, last.text);
        assert Heard(log, q) == before + [m];
        assert forall x :: x in before ==> x in before + [m];
        assert m in before + [m];
      }
    }
  }

  lemma FittingNext(log: seq<Happening>, q: nat)
    requires log != []
    ensures Fitting(log, q)
       <==> && Fitting(log[..|log| - 1], q)
            && (Reaches(log, |log| - 1, q) ==>
                  |SeatOf(log[..|log| - 1], log[|log| - 1].who).name| + 2 + |log[|log| - 1].text| < HALF)
  {
    hide SeatOf;
    var init := log[..|log| - 1];
    assert forall i :: 0 <= i < |init| ==> init[..i] == log[..i] && init[i] == log[i];
    assert forall i :: 0 <= i < |init| ==> (Reaches(init, i, q) <==> Reaches(log, i, q));
  }

  /** Whoever enters and leaves, and however the threads of the members take turns: for each player, the log
      holds its first non-empty messages in the order in which it sent them, and all of them once its thread
      has read its stream. And in whatever pieces it comes in, a player is shown, once all has arrived,
      exactly what the others said in its room while it was there, in the order of the log and each under
      its sender's name, if and only if each fits a frame together with that name. */
  lemma RoomHears(states: seq<Server>, steps: seq<Step>, k: nat, p: nat, q: nat, arrivals: seq<nat>)
    requires Run(states, steps) && k <= |steps|
    requires p in states[k].sent && q in states[k].sockets
    requires |arrivals| > 0 && arrivals[|arrivals| - 1] >= |states[k].sockets[q]|
    ensures SaidBy(states[k].log, p) <= NotEmpty(states[k].sent[p])
    ensures p in states[k].streams
    ensures states[k].streams[p] == [] ==> SaidBy(states[k].log, p) == NotEmpty(states[k].sent[p])
    ensures Calls(states[k].sockets[q], arrivals).messages == Heard(states[k].log, q) <==> Fitting(states[k].log, q)
  {
    hide Next, Frames, Heard, Fitting, Calls, NotEmpty, SaidBy;
    RunFaithful(states, steps, k);
    var r := states[k];
    assert Voiced(r, p) && Served(r, q);
    HeardIsShort(r.log, q);
    ExactIffShort(Heard(r.log, q), arrivals);
  }
}
