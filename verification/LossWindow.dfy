/** The client's packet-loss meter: one event for every state packet received or found missing, and
    a window of the last five seconds kept by dropping old events from the front. */
module LossWindow {
  import Gaps

  datatype Event = Event(lost: bool, at: nat)

  const WINDOW_MS: nat := 5000
  const WORD: nat := 0x1_0000_0000

  // What the client remembers between packets.
  datatype Meter = Meter(first: bool, lastSeq: nat, events: seq<Event>)

  const NEW_METER := Meter(true, 0, [])

  function LostEvents(n: nat, now: nat): seq<Event> {
    seq(n, _ => Event(true, now))
  }

  // The events that a state packet with this sequence number gives rise to.
  function EventsFor(m: Meter, sequence: nat, now: nat): seq<Event> {
    if m.first then [Event(false, now)]
    else if sequence > m.lastSeq then LostEvents(sequence - m.lastSeq - 1, now) + [Event(false, now)]
    else []
  }

  // nowMs - 5000 in 32-bit unsigned arithmetic: it wraps during the first five seconds.
  function Cutoff(now: nat): nat
    requires now < WORD
  {
    (now + WORD - WINDOW_MS) % WORD
  }

  function Expire(events: seq<Event>, cutoff: nat): seq<Event> {
    if |events| > 0 && events[0].at < cutoff then Expire(events[1..], cutoff) else events
  }

  // A state packet of the own player arrives.
  function Take(m: Meter, sequence: nat, now: nat): Meter
    requires now < WORD
  {
    Meter(false, if m.first || sequence > m.lastSeq then sequence else m.lastSeq,
          Expire(m.events + EventsFor(m, sequence, now), Cutoff(now)))
  }

  function CountLost(events: seq<Event>): (n: nat)
    ensures n <= |events|
  {
    if |events| == 0 then 0
    else CountLost(events[..|events| - 1]) + if events[|events| - 1].lost then 1 else 0
  }

  function LossPercent(events: seq<Event>): real {
    if |events| == 0 then 0.0 else CountLost(events) as real / |events| as real * 100.0
  }

  // ---------- histories ----------

  datatype Arrival = Arrival(sequence: nat, at: nat)

  // The clock never goes back, and never wraps.
  ghost predicate Timely(arrivals: seq<Arrival>) {
    && (forall i :: 0 <= i < |arrivals| ==> arrivals[i].at < WORD)
    && (forall i, j :: 0 <= i < j < |arrivals| ==> arrivals[i].at <= arrivals[j].at)
  }

  function Measure(arrivals: seq<Arrival>): Meter
    requires forall i :: 0 <= i < |arrivals| ==> arrivals[i].at < WORD
  {
    if |arrivals| == 0 then NEW_METER
    else
      var a := arrivals[|arrivals| - 1];
      Take(Measure(arrivals[..|arrivals| - 1]), a.sequence, a.at)
  }

  // Every event ever recorded.
  function History(arrivals: seq<Arrival>): seq<Event>
    requires forall i :: 0 <= i < |arrivals| ==> arrivals[i].at < WORD
  {
    if |arrivals| == 0 then []
    else
      var before, a := arrivals[..|arrivals| - 1], arrivals[|arrivals| - 1];
      History(before) + EventsFor(Measure(before), a.sequence, a.at)
  }

  function Sequences(arrivals: seq<Arrival>): seq<nat> {
    seq(|arrivals|, i requires 0 <= i < |arrivals| => arrivals[i].sequence)
  }

  // The events no older than a bound, in order.
  function Since(events: seq<Event>, bound: nat): seq<Event> {
    if |events| == 0 then []
    else
      var rest, e := Since(events[..|events| - 1], bound), events[|events| - 1];
      if e.at >= bound then rest + [e] else rest
  }

  ghost predicate Chronological(events: seq<Event>) {
    forall i, j :: 0 <= i < j < |events| ==> events[i].at <= events[j].at
  }

  lemma {:induction false} SinceConcat(a: seq<Event>, b: seq<Event>, bound: nat)
    ensures Since(a + b, bound) == Since(a, bound) + Since(b, bound)
  {
    if |b| == 0 {
      assert a + b == a;
    } else {
      SinceConcat(a, b[..|b| - 1], bound);
      assert (a + b)[..|a + b| - 1] == a + b[..|b| - 1];
    }
  }

  lemma {:induction false} SinceAll(events: seq<Event>, bound: nat)
    requires forall i :: 0 <= i < |events| ==> events[i].at >= bound
    ensures Since(events, bound) == events
  {
    if |events| > 0 {
      SinceAll(events[..|events| - 1], bound);
      assert events == events[..|events| - 1] + [events[|events| - 1]];
    }
  }

  lemma {:induction false} SinceNone(events: seq<Event>, bound: nat)
    requires forall i :: 0 <= i < |events| ==> events[i].at < bound
    ensures Since(events, bound) == []
  {
    if |events| > 0 { SinceNone(events[..|events| - 1], bound); }
  }

  lemma {:induction false} SinceSince(events: seq<Event>, low: nat, high: nat)
    requires low <= high
    ensures Since(Since(events, low), high) == Since(events, high)
  {
    if |events| > 0 {
      var init, e := events[..|events| - 1], events[|events| - 1];
      SinceSince(init, low, high);
      SinceConcat(Since(init, low), if e.at >= low then [e] else [], high);
      assert [e][..0] == [];
    }
  }

  // Dropping old events from the front is filtering, because events are in order of time.
  lemma {:induction false} ExpireIsSince(events: seq<Event>, bound: nat)
    requires Chronological(events)
    ensures Expire(events, bound) == Since(events, bound)
  {
    hide Since;
    if |events| > 0 && events[0].at < bound {
      ExpireIsSince(events[1..], bound);
      assert events == events[..1] + events[1..];
      SinceConcat(events[..1], events[1..], bound);
      SinceNone(events[..1], bound);
    } else {
      SinceAll(events, bound);
    }
  }

  lemma {:induction false} SinceChronological(events: seq<Event>, bound: nat)
    requires Chronological(events)
    ensures Chronological(Since(events, bound))
    ensures forall e :: e in Since(events, bound) ==> e in events
  {
    if |events| > 0 {
      var init, last := events[..|events| - 1], events[|events| - 1];
      SinceChronological(init, bound);
      forall e | e in init ensures e in events && e.at <= last.at {
        var i :| 0 <= i < |init| && init[i] == e;
        assert events[i] == e;
      }
    }
  }

  lemma EventsForNow(m: Meter, sequence: nat, now: nat)
    ensures forall i :: 0 <= i < |EventsFor(m, sequence, now)| ==> EventsFor(m, sequence, now)[i].at == now
  {
  }

  lemma {:induction false} HistoryTimes(arrivals: seq<Arrival>)
    requires Timely(arrivals)
    ensures Chronological(History(arrivals))
    ensures |arrivals| > 0 ==>
              forall i :: 0 <= i < |History(arrivals)| ==> History(arrivals)[i].at <= arrivals[|arrivals| - 1].at
    ensures |arrivals| == 0 ==> History(arrivals) == []
  {
    if |arrivals| > 0 {
      var before, a := arrivals[..|arrivals| - 1], arrivals[|arrivals| - 1];
      HistoryTimes(before);
      EventsForNow(Measure(before), a.sequence, a.at);
    }
  }

  // The oldest time the window still covers. Nothing recorded in the first five seconds survives.
  function Horizon(now: nat): nat {
    if now < 10000 then 5000 else now - 5000
  }

  // What the window holds at a time, of all the events recorded.
  function Recent(history: seq<Event>, now: nat): seq<Event> {
    if now < 5000 then [] else Since(history, Horizon(now))
  }

  /** After each own state packet the window holds exactly the recorded events that are no older than
      five seconds and were not recorded in the first five seconds of the client's clock, because
      during those the wrapped cutoff empties it. */
  lemma {:induction false} WindowIsRecentHistory(arrivals: seq<Arrival>)
    requires Timely(arrivals) && |arrivals| > 0
    ensures Measure(arrivals).events == Recent(History(arrivals), arrivals[|arrivals| - 1].at)
  {
    var before, a := arrivals[..|arrivals| - 1], arrivals[|arrivals| - 1];
    var history, more := History(before), EventsFor(Measure(before), a.sequence, a.at);
    HistoryTimes(before);
    HistoryTimes(arrivals);
    EventsForNow(Measure(before), a.sequence, a.at);
    if |before| > 0 { WindowIsRecentHistory(before); }
    WindowStep(history, Measure(before).events, more, if |before| > 0 then before[|before| - 1].at else 0, a.at);
  }

  // Dropping old events after some have been added at time `now`.
  lemma ExpireAfter(window: seq<Event>, more: seq<Event>, now: nat, cutoff: nat)
    requires Chronological(window)
    requires forall i :: 0 <= i < |window| ==> window[i].at <= now
    requires forall i :: 0 <= i < |more| ==> more[i].at == now
    ensures Expire(window + more, cutoff) == Since(window, cutoff) + if now < cutoff then [] else more
  {
    ExpireIsSince(window + more, cutoff);
    SinceConcat(window, more, cutoff);
    if now < cutoff { SinceNone(more, cutoff); } else { SinceAll(more, cutoff); }
  }

  lemma RecentAfter(history: seq<Event>, more: seq<Event>, now: nat)
    requires forall i :: 0 <= i < |more| ==> more[i].at == now
    ensures now >= WINDOW_MS ==> Recent(history + more, now) == Since(history, Horizon(now)) + more
  {
    SinceConcat(history, more, Horizon(now));
    if now >= WINDOW_MS { SinceAll(more, Horizon(now)); }
  }

  // One step of the window, given what it held at time `was`.
  lemma WindowStep(history: seq<Event>, window: seq<Event>, more: seq<Event>, was: nat, now: nat)
    requires Chronological(history) && was <= now < WORD
    requires forall i :: 0 <= i < |history| ==> history[i].at <= was
    requires forall i :: 0 <= i < |more| ==> more[i].at == now
    requires window == Recent(history, was)
    ensures Expire(window + more, Cutoff(now)) == Recent(history + more, now)
  {
    CutoffValue(now);
    WindowUntil(history, window, was);
    ExpireAfter(window, more, now, Cutoff(now));
    RecentAfter(history, more, now);
    if now >= WINDOW_MS { WindowKeeps(history, window, was, now); }
  }

  lemma CutoffValue(now: nat)
    requires now < WORD
    ensures now < WINDOW_MS ==> Cutoff(now) > now
    ensures now >= WINDOW_MS ==> Cutoff(now) == now - WINDOW_MS
  {
  }

  lemma WindowUntil(history: seq<Event>, window: seq<Event>, was: nat)
    requires Chronological(history)
    requires forall i :: 0 <= i < |history| ==> history[i].at <= was
    requires window == Recent(history, was)
    ensures Chronological(window)
    ensures forall i :: 0 <= i < |window| ==> window[i].at <= was
  {
    SinceChronological(history, Horizon(was));
    forall i | 0 <= i < |window| ensures window[i].at <= was {
      assert window[i] in window;
      var k :| 0 <= k < |history| && history[k] == window[i];
    }
  }

  lemma WindowKeeps(history: seq<Event>, window: seq<Event>, was: nat, now: nat)
    requires was <= now && now >= WINDOW_MS
    requires forall i :: 0 <= i < |history| ==> history[i].at <= was
    requires window == Recent(history, was)
    ensures Since(window, now - WINDOW_MS) == Since(history, Horizon(now))
  {
    if was < WINDOW_MS {
      SinceNone(history, Horizon(now));
    } else {
      SinceSince(history, Horizon(was), Horizon(now));
      SinceBound(history, Horizon(was));
      SinceSame(window, now - WINDOW_MS, Horizon(now));
    }
  }

  lemma {:induction false} SinceBound(events: seq<Event>, bound: nat)
    ensures forall i :: 0 <= i < |Since(events, bound)| ==> Since(events, bound)[i].at >= bound
  {
    if |events| > 0 { SinceBound(events[..|events| - 1], bound); }
  }

  // Two bounds that no event lies between.
  lemma {:induction false} SinceSame(events: seq<Event>, low: nat, high: nat)
    requires forall i :: 0 <= i < |events| ==> (events[i].at >= low <==> events[i].at >= high)
    ensures Since(events, low) == Since(events, high)
  {
    if |events| > 0 { SinceSame(events[..|events| - 1], low, high); }
  }

  /** The reported loss is a percentage. */
  lemma LossIsPercentage(events: seq<Event>)
    ensures 0.0 <= LossPercent(events) <= 100.0
  {
    if |events| > 0 {
      var lost, all := CountLost(events) as real, |events| as real;
      assert 0.0 <= lost / all <= 1.0 by {
        assert lost == (lost / all) * all;
      }
    }
  }

  // Where the losses are among the events.
  ghost function LostOnes(events: seq<Event>): set<nat> {
    set i: nat | i < |events| && events[i].lost
  }

  lemma {:induction false} LostOnesCounted(events: seq<Event>)
    ensures |LostOnes(events)| == CountLost(events)
  {
    if |events| > 0 {
      var n: nat := |events| - 1;
      LostOnesCounted(events[..n]);
      if events[n].lost {
        assert LostOnes(events) == LostOnes(events[..n]) + {n};
      } else {
        assert LostOnes(events) == LostOnes(events[..n]);
      }
    } else {
      assert LostOnes(events) == {};
    }
  }

  // This part of the events, in per cent, is marked lost; nothing is, if there are none.
  ghost predicate Reports(percent: real, events: seq<Event>) {
    if events == [] then percent == 0.0 else percent * |events| as real == 100.0 * |LostOnes(events)| as real
  }

  lemma ReportsLoss(events: seq<Event>)
    ensures Reports(LossPercent(events), events)
  {
    LostOnesCounted(events);
    if |events| > 0 { ShareTimesAll(CountLost(events) as real, |events| as real); }
  }

  lemma ShareTimesAll(lost: real, all: real)
    requires all > 0.0
    ensures lost / all * 100.0 * all == 100.0 * lost
  {
    var share := lost / all;
    assert share * all == lost;
  }

  // Only one number is that part of some events; it is 0 when none is lost, 100 when all are.
  lemma ReportsOne(percent: real, events: seq<Event>)
    requires events != [] && Reports(percent, events)
    ensures percent == 0.0 <==> forall i :: 0 <= i < |events| ==> !events[i].lost
    ensures percent == 100.0 <==> forall i :: 0 <= i < |events| ==> events[i].lost
  {
    hide CountLost, LostOnes;
    LostOnesCounted(events);
    CountedNoneOrAll(events);
    OneShare(percent, |LostOnes(events)| as real, |events| as real);
  }

  lemma OneShare(percent: real, lost: real, n: real)
    requires n > 0.0 && percent * n == 100.0 * lost
    ensures percent == 0.0 <==> lost == 0.0
    ensures percent == 100.0 <==> lost == n
  {
    Cancels(percent, 0.0, n);
    Cancels(percent, 100.0, n);
  }

  lemma Cancels(a: real, b: real, n: real)
    requires n > 0.0
    ensures a == b <==> a * n == b * n
  {
    if a < b {
      assert (b - a) * n > 0.0;
    } else if b < a {
      assert (a - b) * n > 0.0;
    }
  }

  lemma {:induction false} CountedNoneOrAll(events: seq<Event>)
    ensures CountLost(events) == 0 <==> forall i :: 0 <= i < |events| ==> !events[i].lost
    ensures CountLost(events) == |events| <==> forall i :: 0 <= i < |events| ==> events[i].lost
  {
    if |events| > 0 {
      var init, last := events[..|events| - 1], events[|events| - 1];
      CountedNoneOrAll(init);
      assert forall i :: 0 <= i < |init| ==> init[i] == events[i];
    }
  }

  /** The loss reported after any run of arrivals is, in per cent, the part of the recent events that are
      losses: it is 0 if and only if there is none, and 100 if and only if there is nothing else. */
  lemma LossIsShare(arrivals: seq<Arrival>)
    requires Timely(arrivals) && |arrivals| > 0
    ensures var window := Recent(History(arrivals), arrivals[|arrivals| - 1].at);
            var percent := LossPercent(Measure(arrivals).events);
      && Reports(percent, window)
      && (window != [] ==> (percent == 0.0 <==> forall i :: 0 <= i < |window| ==> !window[i].lost))
      && (window != [] ==> (percent == 100.0 <==> forall i :: 0 <= i < |window| ==> window[i].lost))
  {
    hide Recent, History, Measure, LossPercent, Reports;
    WindowIsRecentHistory(arrivals);
    var window := Recent(History(arrivals), arrivals[|arrivals| - 1].at);
    ReportsLoss(window);
    if window != [] { ReportsOne(LossPercent(window), window); }
  }

  // ---------- the events count losses as the server does ----------

  lemma {:induction false} CountLostConcat(a: seq<Event>, b: seq<Event>)
    ensures CountLost(a + b) == CountLost(a) + CountLost(b)
  {
    if |b| == 0 {
      assert a + b == a;
    } else {
      CountLostConcat(a, b[..|b| - 1]);
      assert (a + b)[..|a + b| - 1] == a + b[..|b| - 1];
    }
  }

  lemma {:induction false} CountLostEvents(n: nat, now: nat)
    ensures CountLost(LostEvents(n, now)) == n
  {
    if n > 0 {
      CountLostEvents(n - 1, now);
      assert LostEvents(n, now)[..n - 1] == LostEvents(n - 1, now);
    }
  }

  lemma CountEventsFor(m: Meter, sequence: nat, now: nat)
    ensures var more := EventsFor(m, sequence, now);
            && (m.first ==> |more| == 1 && CountLost(more) == 0)
            && (!m.first && sequence > m.lastSeq ==>
                  |more| == sequence - m.lastSeq && CountLost(more) == |more| - 1)
            && (!m.first && sequence <= m.lastSeq ==> more == [])
  {
    if m.first {
      assert [Event(false, now)][..0] == [];
    } else if sequence > m.lastSeq {
      var gap := LostEvents(sequence - m.lastSeq - 1, now);
      CountLostEvents(sequence - m.lastSeq - 1, now);
      assert (gap + [Event(false, now)])[..|gap|] == gap;
    }
  }

  lemma {:induction false} EventsAreTally(arrivals: seq<Arrival>)
    requires Timely(arrivals)
    ensures var c := Gaps.Tally(Sequences(arrivals));
            && Measure(arrivals).first == c.empty && Measure(arrivals).lastSeq == c.last
            && CountLost(History(arrivals)) == c.lost
            && |History(arrivals)| == c.lost + c.received
  {
    hide CountLost, EventsFor, Expire, Cutoff;
    if |arrivals| > 0 {
      var before, a := arrivals[..|arrivals| - 1], arrivals[|arrivals| - 1];
      EventsAreTally(before);
      assert Sequences(arrivals)[..|before|] == Sequences(before);
      CountEventsFor(Measure(before), a.sequence, a.at);
      CountLostConcat(History(before), EventsFor(Measure(before), a.sequence, a.at));
    }
  }

  /** Whatever the order of arrival, the events recorded span all sequence numbers from the first to
      the highest. */
  lemma EventsSpanSequences(arrivals: seq<Arrival>)
    requires Timely(arrivals) && |arrivals| > 0
    ensures Gaps.IsMax(Measure(arrivals).lastSeq, Sequences(arrivals))
    ensures |History(arrivals)| == Measure(arrivals).lastSeq - arrivals[0].sequence + 1
  {
    EventsAreTally(arrivals);
    Gaps.Accounting(Sequences(arrivals));
  }

  // When those received are in order and among n numbers from lo on, the LOST events recorded are the
  // numbers that are missing between the first and the last one received.
  lemma LossesAreDropped(arrivals: seq<Arrival>, lo: nat, n: nat)
    requires Timely(arrivals) && |arrivals| > 0
    requires Gaps.Subsequence(Sequences(arrivals), lo, n)
    ensures CountLost(History(arrivals)) == |Gaps.Dropped(Sequences(arrivals), lo, n)|
  {
    EventsAreTally(arrivals);
    Gaps.EndToEnd(Sequences(arrivals), lo, n);
  }
}
