/** The client's picture of the entities: how each packet changes it. */
module Mirror {
  import opened Protocol

  type Entities<P> = map<nat, Seen<P>>

  // Ids from here on belong to effects of the client itself, which a sync must not wipe out.
  const FIRST_LOCAL_ID: nat := 9999

  function Load<P>(m: Entities<P>, entries: seq<Entry<P>>): Entities<P> {
    if |entries| == 0 then m
    else
      var e := entries[|entries| - 1];
      Load(m, entries[..|entries| - 1])[e.id := Seen(e.kind, e.pos)]
  }

  function LocalOnly<P>(m: Entities<P>): Entities<P> {
    map id | id in m && id >= FIRST_LOCAL_ID :: m[id]
  }

  function ApplySync<P>(m: Entities<P>, entries: seq<Entry<P>>): Entities<P> {
    Load(LocalOnly(m), entries)
  }

  function Apply(m: Entities<Point>, p: Packet): Entities<Point> {
    match p
    case EntitySpawn(id, kind, at) => m[id := Seen(kind, at)]
    case EntityUpdate(id, at) => if id in m then m[id := m[id].(pos := at)] else m
    case EntityDestroy(id) => m - {id}
    case GlobalStateSync(entries) => ApplySync(m, Fit(entries))
    case _ => m
  }

  function ApplyAll(m: Entities<Point>, ps: seq<Packet>): Entities<Point> {
    if |ps| == 0 then m else Apply(ApplyAll(m, ps[..|ps| - 1]), ps[|ps| - 1])
  }

  lemma {:induction false} ApplyAllConcat(m: Entities<Point>, a: seq<Packet>, b: seq<Packet>)
    ensures ApplyAll(m, a + b) == ApplyAll(ApplyAll(m, a), b)
  {
    if |b| == 0 {
      assert a + b == a;
    } else {
      ApplyAllConcat(m, a, b[..|b| - 1]);
      assert (a + b)[..|a + b| - 1] == a + b[..|b| - 1];
    }
  }

  ghost predicate DistinctEntries<P>(entries: seq<Entry<P>>) {
    forall i, j :: 0 <= i < j < |entries| ==> entries[i].id != entries[j].id
  }

  lemma LoadNext<P>(m: Entities<P>, entries: seq<Entry<P>>, e: Entry<P>)
    ensures Load(m, entries + [e]) == Load(m, entries)[e.id := Seen(e.kind, e.pos)]
  {
    assert (entries + [e])[..|entries|] == entries;
  }

  ghost predicate Names<P>(entries: seq<Entry<P>>, id: nat) {
    exists i :: 0 <= i < |entries| && entries[i].id == id
  }

  lemma NamesNext<P>(entries: seq<Entry<P>>, e: Entry<P>, id: nat)
    ensures Names(entries + [e], id) <==> Names(entries, id) || id == e.id
  {
    var all := entries + [e];
    assert all[|entries|] == e;
    if i :| 0 <= i < |all| && all[i].id == id {
      assert i < |entries| ==> entries[i].id == id;
    }
    if i :| 0 <= i < |entries| && entries[i].id == id {
      assert all[i].id == id;
    }
  }

  lemma DistinctInit<P>(entries: seq<Entry<P>>, e: Entry<P>)
    requires DistinctEntries(entries + [e])
    ensures DistinctEntries(entries) && !Names(entries, e.id)
  {
    var all := entries + [e];
    assert all[|entries|] == e && forall i :: 0 <= i < |entries| ==> all[i] == entries[i];
  }

  /** Loading entries with distinct ids: an id has the entry that names it, or what it had before. */
  lemma {:induction false} LoadLooksUp<P>(m: Entities<P>, entries: seq<Entry<P>>)
    requires DistinctEntries(entries)
    ensures forall id :: id in Load(m, entries) <==> id in m || Names(entries, id)
    ensures forall i :: 0 <= i < |entries| ==>
              entries[i].id in Load(m, entries)
              && Load(m, entries)[entries[i].id] == Seen(entries[i].kind, entries[i].pos)
    ensures forall id :: id in m && !Names(entries, id) ==> Load(m, entries)[id] == m[id]
  {
    if |entries| > 0 {
      hide Load, DistinctEntries, Names;
      var init, last := entries[..|entries| - 1], entries[|entries| - 1];
      assert entries == init + [last];
      DistinctInit(init, last);
      LoadLooksUp(m, init);
      LoadNext(m, init, last);
      forall id { NamesNext(init, last, id); }
      forall i | 0 <= i < |init| ensures init[i].id != last.id { NamedAt(init, i); }
    }
  }

  lemma NamedAt<P>(entries: seq<Entry<P>>, i: nat)
    requires i < |entries|
    ensures Names(entries, entries[i].id)
  {
  }

  // Two pictures that agree on the server's ids go on agreeing, whatever arrives.
  function Below(m: Entities<Point>): Entities<Point> {
    map id | id in m && id < FIRST_LOCAL_ID :: m[id]
  }

  lemma {:induction false} LoadBelow(m: Entities<Point>, n: Entities<Point>, entries: seq<Entry<Point>>)
    requires Below(m) == Below(n)
    ensures Below(Load(m, entries)) == Below(Load(n, entries))
  {
    if |entries| > 0 {
      var init, e := entries[..|entries| - 1], entries[|entries| - 1];
      LoadBelow(m, n, init);
      BelowInsert(Load(m, init), Load(n, init), e.id, Seen(e.kind, e.pos));
    }
  }

  lemma BelowLookup(m: Entities<Point>, n: Entities<Point>, id: nat)
    requires Below(m) == Below(n) && id < FIRST_LOCAL_ID
    ensures id in m <==> id in n
    ensures id in m ==> m[id] == n[id]
  {
    assert id in Below(m) <==> id in m;
    assert id in Below(n) <==> id in n;
    if id in m { assert Below(m)[id] == Below(n)[id]; }
  }

  lemma BelowFromLookup(m: Entities<Point>, n: Entities<Point>)
    requires forall id :: id < FIRST_LOCAL_ID ==> (id in m <==> id in n) && (id in m ==> m[id] == n[id])
    ensures Below(m) == Below(n)
  {
  }

  lemma BelowInsert(m: Entities<Point>, n: Entities<Point>, id: nat, s: Seen<Point>)
    requires Below(m) == Below(n)
    ensures Below(m[id := s]) == Below(n[id := s])
  {
    forall i: nat | i < FIRST_LOCAL_ID
      ensures (i in m <==> i in n) && (i in m ==> m[i] == n[i])
    {
      BelowLookup(m, n, i);
    }
    BelowFromLookup(m[id := s], n[id := s]);
  }

  lemma BelowApply(m: Entities<Point>, n: Entities<Point>, p: Packet)
    requires Below(m) == Below(n)
    ensures Below(Apply(m, p)) == Below(Apply(n, p))
  {
    match p
    case EntitySpawn(id, kind, at) => BelowInsert(m, n, id, Seen(kind, at));
    case GlobalStateSync(entries) =>
      assert Below(LocalOnly(m)) == Below(LocalOnly(n));
      LoadBelow(LocalOnly(m), LocalOnly(n), Fit(entries));
    case _ =>
      forall i: nat | i < FIRST_LOCAL_ID
        ensures (i in m <==> i in n) && (i in m ==> m[i] == n[i])
      {
        BelowLookup(m, n, i);
      }
      BelowFromLookup(Apply(m, p), Apply(n, p));
  }

  lemma {:induction false} BelowApplyAll(m: Entities<Point>, n: Entities<Point>, ps: seq<Packet>)
    requires Below(m) == Below(n)
    ensures Below(ApplyAll(m, ps)) == Below(ApplyAll(n, ps))
  {
    if |ps| > 0 {
      BelowApplyAll(m, n, ps[..|ps| - 1]);
      BelowApply(ApplyAll(m, ps[..|ps| - 1]), ApplyAll(n, ps[..|ps| - 1]), ps[|ps| - 1]);
    }
  }
}
