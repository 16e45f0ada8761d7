/** Counting losses by the gaps in a sequence of numbers. The server does it with the ticks of a
    player's inputs, the client with the sequence numbers of its own state packets. */
module Gaps {

  datatype Counter = Counter(empty: bool, last: nat, received: nat, lost: nat)

  const UNUSED := Counter(true, 0, 0, 0)

  // Number t arrives. Numbers that are not above the highest so far are ignored.
  function Note(c: Counter, t: nat): Counter {
    if c.empty then Counter(false, t, 1, c.lost)
    else if t > c.last then Counter(false, t, c.received + 1, c.lost + (t - c.last - 1))
    else c
  }

  function Tally(ts: seq<nat>): Counter {
    if |ts| == 0 then UNUSED else Note(Tally(ts[..|ts| - 1]), ts[|ts| - 1])
  }

  // The strict running maxima of the arrivals.
  function Records(ts: seq<nat>): set<nat> {
    if |ts| == 0 then {}
    else
      var init, t := ts[..|ts| - 1], ts[|ts| - 1];
      Records(init) + if forall u :: u in init ==> u < t then {t} else {}
  }

  // The numbers from lo up to but not including end.
  function Range(lo: nat, end: nat): (r: set<nat>)
    ensures forall t :: t in r <==> lo <= t < end
  {
    if end <= lo then {} else Range(lo, end - 1) + {end - 1}
  }

  lemma RangeNext(lo: nat, end: nat)
    requires lo < end
    ensures Range(lo, end) == Range(lo, end - 1) + {end - 1} && end - 1 !in Range(lo, end - 1)
  {
  }

  lemma RangeEmpty(lo: nat)
    ensures Range(lo, lo) == {}
  {
  }

  lemma {:induction false} RangeSize(lo: nat, end: nat)
    requires lo <= end
    ensures |Range(lo, end)| == end - lo
  {
    hide Range;
    if lo < end {
      RangeSize(lo, end - 1);
      RangeNext(lo, end);
    } else {
      RangeEmpty(lo);
    }
  }

  ghost predicate IsMax(t: nat, ts: seq<nat>) {
    t in ts && forall u :: u in ts ==> u <= t
  }

  lemma {:induction false} RecordsArrived(ts: seq<nat>)
    ensures forall t :: t in Records(ts) ==> t in ts
  {
    if |ts| > 0 {
      RecordsArrived(ts[..|ts| - 1]);
      assert ts == ts[..|ts| - 1] + [ts[|ts| - 1]];
    }
  }

  lemma {:induction false} TallyMax(ts: seq<nat>)
    requires |ts| > 0
    ensures !Tally(ts).empty && IsMax(Tally(ts).last, ts)
  {
    var init := ts[..|ts| - 1];
    assert ts == init + [ts[|ts| - 1]];
    if |init| > 0 { TallyMax(init); }
  }

  // A number is a new record exactly when the counter takes it.
  lemma RecordsStep(init: seq<nat>, t: nat)
    requires |init| > 0
    ensures t > Tally(init).last ==> t !in Records(init) && Records(init + [t]) == Records(init) + {t}
    ensures t <= Tally(init).last ==> Records(init + [t]) == Records(init)
    ensures Tally(init + [t]) == Note(Tally(init), t)
  {
    TallyMax(init);
    RecordsArrived(init);
    assert (init + [t])[..|init|] == init;
  }

  lemma {:induction false} TallyFacts(ts: seq<nat>)
    requires |ts| > 0
    ensures ts[0] <= Tally(ts).last && ts[0] in Records(ts)
    ensures forall t :: t in Records(ts) ==> ts[0] <= t <= Tally(ts).last
    ensures Tally(ts).received == |Records(ts)|
    ensures Tally(ts).received + Tally(ts).lost == Tally(ts).last - ts[0] + 1
  {
    hide Records, Tally;
    var init, t := ts[..|ts| - 1], ts[|ts| - 1];
    assert ts == init + [t];
    if |init| > 0 {
      TallyFacts(init);
      RecordsStep(init, t);
      TallyMax(init);
    } else {
      OneTallied(t);
    }
  }

  lemma OneTallied(t: nat)
    ensures Tally([] + [t]) == Counter(false, t, 1, 0) && Records([] + [t]) == {t}
  {
    assert ([] + [t])[..0] == [];
  }

  // Numbers between the first and the highest arrival that never arrived, and those that did but
  // too late to be recorded.
  ghost function Missing(ts: seq<nat>): set<nat>
    requires |ts| > 0
  {
    set t | t in Range(ts[0], Tally(ts).last + 1) && t !in ts
  }

  ghost function Late(ts: seq<nat>): set<nat>
    requires |ts| > 0
  {
    set t | t in ts && t > ts[0] && t !in Records(ts)
  }

  /** For any arrivals, with duplicates and in any order: the highest number seen, one count for each
      strict running maximum, and together with the losses the whole span from the first number.
      What is counted as lost is what never arrived and what arrived late. */
  lemma Accounting(ts: seq<nat>)
    requires |ts| > 0
    ensures IsMax(Tally(ts).last, ts)
    ensures Tally(ts).received == |Records(ts)|
    ensures Tally(ts).received + Tally(ts).lost == Tally(ts).last - ts[0] + 1
    ensures Missing(ts) * Late(ts) == {}
    ensures Tally(ts).lost == |Missing(ts)| + |Late(ts)|
  {
    TallyMax(ts);
    TallyFacts(ts);
    RecordsArrived(ts);
    Partition(ts, Tally(ts).last, Records(ts), Missing(ts), Late(ts));
  }

  lemma Partition(ts: seq<nat>, last: nat, records: set<nat>, missing: set<nat>, late: set<nat>)
    requires |ts| > 0 && ts[0] <= last && ts[0] in records
    requires forall t :: t in records ==> t in ts && ts[0] <= t <= last
    requires forall t :: t in ts ==> t <= last
    requires forall t :: t in missing <==> ts[0] <= t <= last && t !in ts
    requires forall t :: t in late <==> t in ts && t > ts[0] && t !in records
    ensures missing * late == {} && |records| + |missing| + |late| == last - ts[0] + 1
  {
    RangeSize(ts[0], last + 1);
    ThreeWay(Range(ts[0], last + 1), records, missing, late);
  }

  lemma ThreeWay(all: set<nat>, a: set<nat>, b: set<nat>, c: set<nat>)
    requires forall t :: t in all <==> t in a || t in b || t in c
    requires forall t :: t in a ==> t !in b && t !in c
    requires forall t :: t in b ==> t !in c
    ensures b * c == {} && |all| == |a| + |b| + |c|
  {
    assert all == a + (b + c);
  }

  /** The count of losses is exact if and only if nothing arrived late. */
  lemma ExactIffNothingLate(ts: seq<nat>)
    requires |ts| > 0
    ensures Tally(ts).lost == |Missing(ts)| <==> Late(ts) == {}
  {
    Accounting(ts);
  }

  /** A number that arrives late is counted as lost although nothing is missing. */
  lemma LateCountsAsLost()
    ensures Missing([1, 3, 2]) == {} && Late([1, 3, 2]) == {2}
    ensures Tally([1, 3, 2]).lost == 1
  {
    assert [1, 3, 2] == [1, 3] + [2] && [1, 3] == [1] + [3] && [1] == [] + [1];
    assert Tally([1]) == Note(UNUSED, 1) by { TallyNext([], 1); }
    TallyNext([1], 3);
    TallyNext([1, 3], 2);
    RecordsStep([1], 3);
    RecordsStep([1, 3], 2);
    assert Records([1]) == {1} by { assert [1][..0] == []; }
  }

  lemma TallyNext(ts: seq<nat>, t: nat)
    ensures Tally(ts + [t]) == Note(Tally(ts), t)
  {
    assert (ts + [t])[..|ts|] == ts;
  }

  ghost predicate Increasing(ts: seq<nat>) {
    forall i, j :: 0 <= i < j < |ts| ==> ts[i] < ts[j]
  }

  lemma {:induction false} IncreasingRecords(ts: seq<nat>)
    requires Increasing(ts)
    ensures forall t :: t in ts ==> t in Records(ts)
  {
    if |ts| > 0 {
      var init, t := ts[..|ts| - 1], ts[|ts| - 1];
      IncreasingRecords(init);
      assert ts == init + [t];
    }
  }

  // Which of the numbers lo, lo + 1, ... were lost on a channel that keeps the order: received is
  // what the receiver saw of them.
  ghost predicate Subsequence(received: seq<nat>, lo: nat, n: nat) {
    Increasing(received) && forall t :: t in received ==> lo <= t < lo + n
  }

  // The numbers dropped between the first and the last one received.
  ghost function Dropped(received: seq<nat>, lo: nat, n: nat): set<nat>
    requires |received| > 0
  {
    set t | t in Range(lo, lo + n) && received[0] < t < received[|received| - 1] && t !in received
  }

  lemma DroppedAreMissing(received: seq<nat>, lo: nat, n: nat)
    requires Subsequence(received, lo, n) && |received| > 0
    requires Tally(received).last == received[|received| - 1]
    ensures Missing(received) == Dropped(received, lo, n)
  {
    var last := received[|received| - 1];
    assert last in received && received[0] in received;
    forall t ensures t in Missing(received) <==> t in Dropped(received, lo, n) {}
  }

  /** Over a channel that loses but does not reorder, the losses counted are exactly the numbers sent
      and not received between the first and the last one received. */
  lemma EndToEnd(received: seq<nat>, lo: nat, n: nat)
    requires Subsequence(received, lo, n) && |received| > 0
    ensures Tally(received).last == received[|received| - 1]
    ensures Tally(received).received == |received|
    ensures Tally(received).lost == |Dropped(received, lo, n)|
  {
    Accounting(received);
    IncreasingRecords(received);
    SizeOfIncreasing(received);
    LastIsMax(received);
    DroppedAreMissing(received, lo, n);
    assert Late(received) == {};
  }

  lemma LastIsMax(received: seq<nat>)
    requires Increasing(received) && |received| > 0
    ensures Tally(received).last == received[|received| - 1]
  {
    TallyMax(received);
    assert received[|received| - 1] in received;
  }

  lemma {:induction false} SizeOfIncreasing(ts: seq<nat>)
    requires Increasing(ts)
    ensures |Records(ts)| == |ts|
  {
    if |ts| > 0 {
      var init, t := ts[..|ts| - 1], ts[|ts| - 1];
      SizeOfIncreasing(init);
      assert ts == init + [t];
      RecordsArrived(init);
      assert t !in init;
    }
  }

  // n numbers from lo on.
  function Upwards(lo: nat, n: nat): seq<nat> {
    seq(n, (i: nat) => lo + i)
  }

  /** A client says hello with tick 0 and then counts from its first tick t0. Nothing is lost, and
      yet the server counts the numbers between as lost: none exactly when t0 is at most 1. */
  lemma HelloCountsAsLoss(t0: nat, n: nat)
    requires t0 >= 1 && n >= 1
    ensures Tally([0] + Upwards(t0, n)).lost == t0 - 1
    ensures Tally([0] + Upwards(t0, n)).lost == 0 <==> t0 <= 1
  {
    var ts := [0] + Upwards(t0, n);
    Accounting(ts);
    IncreasingRecords(ts);
    SizeOfIncreasing(ts);
    assert ts[|ts| - 1] == t0 + n - 1;
    assert ts[|ts| - 1] in ts;
    assert forall t :: t in ts ==> t <= t0 + n - 1;
  }
}
