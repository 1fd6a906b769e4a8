/** Drift baselines and events: scanning a cluster, resetting its baselines, promoting a change. */
module DriftScan {
  import opened Wrappers
  import opened TextOrder
  import opened Drift

  datatype Key = Key(kind: string, scope: string)

  /** One object of the fetched state. */
  datatype Item = Item(key: Key, snap: Doc)

  /** One row of the baseline table; the table does not keep keys unique. */
  datatype Row = Row(cluster: string, key: Key, snap: Doc)

  datatype Status = Open | Acknowledged | Superseded

  datatype Change = Fields(diffs: seq<Diff>) | Gone(before: Doc)

  datatype Event = Event(cluster: string, key: Key, change: Change, status: Status)

  // ---------------------------------------------------------------- the baseline table

  /** The baselines a scan of a cluster works with: the last row of each key. */
  function BaselinesOf(rows: seq<Row>, cid: string): map<Key, Doc> {
    if rows == [] then map[]
    else
      var r, m := rows[|rows| - 1], BaselinesOf(rows[..|rows| - 1], cid);
      if r.cluster == cid then m[r.key := r.snap] else m
  }

  /** Their keys in the order they first appear. */
  function OrderOf(rows: seq<Row>, cid: string): seq<Key> {
    if rows == [] then []
    else
      var r, keys := rows[|rows| - 1], OrderOf(rows[..|rows| - 1], cid);
      if r.cluster == cid && r.key !in keys then keys + [r.key] else keys
  }

  function Without(rows: seq<Row>, cid: string, key: Key): seq<Row> {
    if rows == [] then []
    else
      var r := rows[|rows| - 1];
      Without(rows[..|rows| - 1], cid, key) + if r.cluster == cid && r.key == key then [] else [r]
  }

  function SetRow(rows: seq<Row>, cid: string, key: Key, snap: Doc): seq<Row> {
    Without(rows, cid, key) + [Row(cid, key, snap)]
  }

  function WithoutCluster(rows: seq<Row>, cid: string): seq<Row> {
    if rows == [] then []
    else
      var r := rows[|rows| - 1];
      WithoutCluster(rows[..|rows| - 1], cid) + if r.cluster == cid then [] else [r]
  }

  function RowsOf(cid: string, state: seq<Item>): seq<Row> {
    if state == [] then []
    else var x := state[|state| - 1]; RowsOf(cid, state[..|state| - 1]) + [Row(cid, x.key, x.snap)]
  }

  function Supersede(events: seq<Event>, cid: string): seq<Event> {
    if events == [] then []
    else
      var e := events[|events| - 1];
      Supersede(events[..|events| - 1], cid) +
      [if e.cluster == cid && e.status.Open? then e.(status := Superseded) else e]
  }

  // ---------------------------------------------------------------- what a scan finds

  ghost function DiffAgainst(base: map<Key, Doc>, x: Item): seq<Diff>
    requires x.key in base
  {
    FlatDiff(FieldsOf(base[x.key]), FieldsOf(x.snap))
  }

  ghost function EventsFor(cid: string, base: map<Key, Doc>, x: Item): seq<Event> {
    if x.key !in base || DiffAgainst(base, x) == [] then []
    else [Event(cid, x.key, Fields(DiffAgainst(base, x)), Open)]
  }

  ghost function Drifted(cid: string, base: map<Key, Doc>, state: seq<Item>): seq<Event> {
    if state == [] then [] else Drifted(cid, base, state[..|state| - 1]) + EventsFor(cid, base, state[|state| - 1])
  }

  function SeenKeys(state: seq<Item>): set<Key> {
    if state == [] then {} else SeenKeys(state[..|state| - 1]) + {state[|state| - 1].key}
  }

  function GoneEvent(cid: string, key: Key, before: Doc): Event {
    Event(cid, key, Gone(before), Open)
  }

  /** A baseline whose object was not fetched. */
  predicate Vanished(base: map<Key, Doc>, seen: set<Key>, key: Key) { key in base && key !in seen }

  function GoneEvents(cid: string, base: map<Key, Doc>, order: seq<Key>, seen: set<Key>): seq<Event> {
    if order == [] then []
    else
      var k := order[|order| - 1];
      GoneEvents(cid, base, order[..|order| - 1], seen) +
      if Vanished(base, seen, k) then [GoneEvent(cid, k, base[k])] else []
  }

  function GoneScopes(base: map<Key, Doc>, order: seq<Key>, seen: set<Key>): seq<string> {
    if order == [] then []
    else
      var k := order[|order| - 1];
      GoneScopes(base, order[..|order| - 1], seen) + if Vanished(base, seen, k) then [k.scope] else []
  }

  predicate Seeds(base: map<Key, Doc>, x: Item, autobaseline: bool) { autobaseline && x.key !in base }

  function SeedOne(rows: seq<Row>, cid: string, base: map<Key, Doc>, x: Item, autobaseline: bool): seq<Row> {
    if Seeds(base, x, autobaseline) then SetRow(rows, cid, x.key, x.snap) else rows
  }

  /** The rows after a scan: a seeding one gives every fetched object that had no baseline one. */
  function Seeded(rows: seq<Row>, cid: string, base: map<Key, Doc>, state: seq<Item>, autobaseline: bool): seq<Row> {
    if state == [] then rows
    else
      var x, before := state[|state| - 1], Seeded(rows, cid, base, state[..|state| - 1], autobaseline);
      SeedOne(before, cid, base, x, autobaseline)
  }

  function SeedCount(base: map<Key, Doc>, state: seq<Item>, autobaseline: bool): nat {
    if state == [] then 0
    else
      SeedCount(base, state[..|state| - 1], autobaseline) +
      if Seeds(base, state[|state| - 1], autobaseline) then 1 else 0
  }

  lemma {:induction false} OrderHasKeys(rows: seq<Row>, cid: string)
    ensures forall k :: k in OrderOf(rows, cid) <==> k in BaselinesOf(rows, cid)
  {
    if rows != [] { OrderHasKeys(rows[..|rows| - 1], cid); }
  }

  ghost function Found(rows: seq<Row>, cid: string, state: seq<Item>): seq<Event> {
    var base := BaselinesOf(rows, cid);
    Drifted(cid, base, state) + GoneEvents(cid, base, OrderOf(rows, cid), SeenKeys(state))
  }

  // ---------------------------------------------------------------- the store

  datatype ScanResult = NotFound | Offline | Scanned(found: seq<Event>, seeded: nat, removed: seq<string>)

  /** What a cluster's manager is when a handler looks: absent, disconnected or answering with a state. */
  datatype Reach = Absent | Disconnected | Answers(state: seq<Item>)

  ghost function Outcome(rows: seq<Row>, cid: string, reach: Reach, autobaseline: bool): ScanResult {
    match reach
    case Absent => NotFound
    case Disconnected => Offline
    case Answers(state) =>
      Scanned(Found(rows, cid, state), SeedCount(BaselinesOf(rows, cid), state, autobaseline),
              GoneScopes(BaselinesOf(rows, cid), OrderOf(rows, cid), SeenKeys(state)))
  }

  function RowsAfterScan(rows: seq<Row>, cid: string, reach: Reach, autobaseline: bool): seq<Row> {
    if reach.Answers? then Seeded(rows, cid, BaselinesOf(rows, cid), reach.state, autobaseline) else rows
  }

  lemma ScanStep(rows: seq<Row>, cid: string, base: map<Key, Doc>, state: seq<Item>, i: nat, autobaseline: bool)
    requires i < |state|
    ensures Drifted(cid, base, state[..i + 1]) == Drifted(cid, base, state[..i]) + EventsFor(cid, base, state[i])
    ensures SeenKeys(state[..i + 1]) == SeenKeys(state[..i]) + {state[i].key}
    ensures SeedCount(base, state[..i + 1], autobaseline)
            == SeedCount(base, state[..i], autobaseline) + if Seeds(base, state[i], autobaseline) then 1 else 0
    ensures Seeded(rows, cid, base, state[..i + 1], autobaseline)
            == SeedOne(Seeded(rows, cid, base, state[..i], autobaseline), cid, base, state[i], autobaseline)
  {
    assert state[..i + 1][..i] == state[..i];
  }

  class Store {
    var baselines: seq<Row>
    var events: seq<Event>

    constructor ()
      ensures baselines == [] && events == []
    {
      baselines, events := [], [];
    }

    method LoadBaselines(cid: string) returns (base: map<Key, Doc>, order: seq<Key>)
      ensures base == BaselinesOf(baselines, cid) && order == OrderOf(baselines, cid)
    {
      base, order := map[], [];
      for i := 0 to |baselines|
        invariant base == BaselinesOf(baselines[..i], cid) && order == OrderOf(baselines[..i], cid)
      {
        assert baselines[..i + 1][..i] == baselines[..i];
        OrderHasKeys(baselines[..i], cid);
        var r := baselines[i];
        if r.cluster == cid {
          if r.key !in base { order := order + [r.key]; }
          base := base[r.key := r.snap];
        }
      }
      assert baselines[..|baselines|] == baselines;
    }

    method SetBaseline(cid: string, key: Key, snap: Doc)
      modifies this`baselines
      ensures baselines == SetRow(old(baselines), cid, key, snap)
    {
      var kept: seq<Row> := [];
      for i := 0 to |baselines|
        invariant baselines == old(baselines) && kept == Without(baselines[..i], cid, key)
      {
        assert baselines[..i + 1][..i] == baselines[..i];
        if !(baselines[i].cluster == cid && baselines[i].key == key) { kept := kept + [baselines[i]]; }
      }
      assert baselines[..|baselines|] == baselines;
      baselines := kept + [Row(cid, key, snap)];
    }

    method RecordEvent(cid: string, key: Key, change: Change) returns (e: Event)
      modifies this`events
      ensures e == Event(cid, key, change, Open) && events == old(events) + [e]
    {
      e := Event(cid, key, change, Open);
      events := events + [e];
    }

    method ScanItem(cid: string, base: map<Key, Doc>, x: Item, autobaseline: bool)
        returns (found: seq<Event>, seeded: bool)
      modifies this
      ensures found == EventsFor(cid, base, x) && events == old(events) + found
      ensures seeded == Seeds(base, x, autobaseline) && baselines == SeedOne(old(baselines), cid, base, x, autobaseline)
    {
      found, seeded := [], false;
      if x.key !in base {
        if autobaseline {
          SetBaseline(cid, x.key, x.snap);
          seeded := true;
        }
      } else {
        var diffs := ComputeDiff(base[x.key], x.snap);
        if diffs != [] {
          var e := RecordEvent(cid, x.key, Fields(diffs));
          found := [e];
        }
      }
    }

    /** The pass over the fetched objects. */
    method ScanState(cid: string, base: map<Key, Doc>, state: seq<Item>, autobaseline: bool)
      returns (found: seq<Event>, seeded: nat, seen: set<Key>)
      modifies this
      ensures found == Drifted(cid, base, state) && events == old(events) + found && seen == SeenKeys(state)
      ensures seeded == SeedCount(base, state, autobaseline)
      ensures baselines == Seeded(old(baselines), cid, base, state, autobaseline)
    {
      found, seeded, seen := [], 0, {};
      for i := 0 to |state|
        invariant found == Drifted(cid, base, state[..i]) && events == old(events) + found
        invariant seen == SeenKeys(state[..i]) && seeded == SeedCount(base, state[..i], autobaseline)
        invariant baselines == Seeded(old(baselines), cid, base, state[..i], autobaseline)
      {
        ScanStep(old(baselines), cid, base, state, i, autobaseline);
        var more, isNew := ScanItem(cid, base, state[i], autobaseline);
        found := found + more;
        seen := seen + {state[i].key};
        if isNew { seeded := seeded + 1; }
      }
      assert state[..|state|] == state;
    }

    /** The pass over baselines whose objects were not fetched. */
    method ScanGone(cid: string, base: map<Key, Doc>, order: seq<Key>, seen: set<Key>)
      returns (found: seq<Event>, removed: seq<string>)
      modifies this`events
      ensures found == GoneEvents(cid, base, order, seen) && removed == GoneScopes(base, order, seen)
      ensures events == old(events) + found
    {
      found, removed := [], [];
      for i := 0 to |order|
        invariant found == GoneEvents(cid, base, order[..i], seen) && removed == GoneScopes(base, order[..i], seen)
        invariant events == old(events) + found
      {
        assert order[..i + 1][..i] == order[..i];
        var k := order[i];
        if Vanished(base, seen, k) {
          var e := RecordEvent(cid, k, Gone(base[k]));
          found := found + [e];
          removed := removed + [k.scope];
        }
      }
      assert order[..|order|] == order;
    }

    method Examine(cid: string, state: seq<Item>, autobaseline: bool)
      returns (found: seq<Event>, seeded: nat, removed: seq<string>)
      modifies this
      ensures found == Found(old(baselines), cid, state) && events == old(events) + found
      ensures Scanned(found, seeded, removed) == Outcome(old(baselines), cid, Answers(state), autobaseline)
      ensures baselines == RowsAfterScan(old(baselines), cid, Answers(state), autobaseline)
    {
      ghost var past := events;
      var base, order := LoadBaselines(cid);
      var seen, gone;
      found, seeded, seen := ScanState(cid, base, state, autobaseline);
      gone, removed := ScanGone(cid, base, order, seen);
      assert events == past + (found + gone);
      found := found + gone;
    }

    method ScanCluster(cid: string, reach: Reach, autobaseline: bool) returns (r: ScanResult)
      modifies this
      ensures r == Outcome(old(baselines), cid, reach, autobaseline)
      ensures (r == NotFound <==> reach == Absent) && (r == Offline <==> reach == Disconnected)
      ensures !r.Scanned? || !autobaseline ==> baselines == old(baselines)
      ensures events == old(events) + if r.Scanned? then r.found else []
      ensures baselines == RowsAfterScan(old(baselines), cid, reach, autobaseline)
    {
      if reach.Absent? { return NotFound; }
      if reach.Disconnected? { return Offline; }
      SeededMeaning(baselines, cid, BaselinesOf(baselines, cid), reach.state);
      var found, seeded, removed := Examine(cid, reach.state, autobaseline);
      r := Scanned(found, seeded, removed);
    }

    method ResetBaseline(cid: string, known: bool, state: seq<Item>) returns (count: Option<nat>)
      modifies this
      ensures !known ==> count == None && baselines == old(baselines) && events == old(events)
      ensures known ==> count == Some(|state|)
                        && baselines == WithoutCluster(old(baselines), cid) + RowsOf(cid, state)
                        && events == Supersede(old(events), cid)
    {
      if !known { return None; }
      var kept: seq<Row> := [];
      for i := 0 to |baselines|
        invariant baselines == old(baselines) && events == old(events) && kept == WithoutCluster(baselines[..i], cid)
      {
        assert baselines[..i + 1][..i] == baselines[..i];
        if baselines[i].cluster != cid { kept := kept + [baselines[i]]; }
      }
      assert baselines[..|baselines|] == baselines;
      var after: seq<Event> := [];
      for i := 0 to |events|
        invariant baselines == old(baselines) && events == old(events) && after == Supersede(events[..i], cid)
      {
        assert events[..i + 1][..i] == events[..i];
        var e := events[i];
        after := after + [if e.cluster == cid && e.status.Open? then e.(status := Superseded) else e];
      }
      assert events[..|events|] == events;
      baselines, events := kept, after;
      for i := 0 to |state|
        invariant baselines == kept + RowsOf(cid, state[..i]) && events == after
      {
        assert state[..i + 1][..i] == state[..i];
        baselines := baselines + [Row(cid, state[i].key, state[i].snap)];
      }
      assert state[..|state|] == state;
      count := Some(|state|);
    }

    /** Acknowledging with promotion: the first fetched object of the event's key becomes its baseline. */
    method Promote(cid: string, key: Key, state: seq<Item>)
      modifies this`baselines
      ensures baselines == Promoted(old(baselines), cid, key, state)
    {
      for i := 0 to |state|
        invariant baselines == old(baselines) && FirstOf(state, key) == FirstOf(state[i..], key)
      {
        if state[i].key == key {
          SetBaseline(cid, key, state[i].snap);
          return;
        }
        assert state[i..][1..] == state[i + 1..];
      }
    }
  }

  function FirstOf(state: seq<Item>, key: Key): Option<Doc> {
    if state == [] then None else if state[0].key == key then Some(state[0].snap) else FirstOf(state[1..], key)
  }

  function Promoted(rows: seq<Row>, cid: string, key: Key, state: seq<Item>): seq<Row> {
    var first := FirstOf(state, key);
    if first.None? then rows else SetRow(rows, cid, key, first.value)
  }

  // ---------------------------------------------------------------- what the table operations mean

  /** Row `i` is the last one of the cluster for the key, and holds the snapshot. */
  ghost predicate LastRow(rows: seq<Row>, cid: string, key: Key, snap: Doc, i: nat) {
    && i < |rows| && rows[i] == Row(cid, key, snap)
    && forall j :: i < j < |rows| && rows[j].cluster == cid ==> rows[j].key != key
  }

  /** The baseline of a key is the snapshot of the cluster's last row for it. */
  lemma {:induction false} BaselinesMeaning(rows: seq<Row>, cid: string, key: Key, snap: Doc)
    ensures key in BaselinesOf(rows, cid) && BaselinesOf(rows, cid)[key] == snap
            <==> exists i: nat :: LastRow(rows, cid, key, snap, i)
  {
    if rows != [] {
      var n := |rows| - 1;
      BaselinesMeaning(rows[..n], cid, key, snap);
      if rows[n].cluster == cid && rows[n].key == key {
        if rows[n].snap == snap { assert LastRow(rows, cid, key, snap, n); }
      } else {
        if i: nat :| LastRow(rows[..n], cid, key, snap, i) { assert LastRow(rows, cid, key, snap, i); }
        if i: nat :| LastRow(rows, cid, key, snap, i) { assert LastRow(rows[..n], cid, key, snap, i); }
      }
    }
  }

  lemma UpdateAndRemove(m: map<Key, Doc>, key: Key, k: Key, v: Doc)
    ensures k == key ==> m[k := v] - {key} == m - {key}
    ensures k != key ==> m[k := v] - {key} == (m - {key})[k := v]
  {
  }

  lemma {:induction false} WithoutMeaning(rows: seq<Row>, cid: string, key: Key)
    ensures BaselinesOf(Without(rows, cid, key), cid) == BaselinesOf(rows, cid) - {key}
  {
    if rows != [] {
      var before, r := rows[..|rows| - 1], rows[|rows| - 1];
      WithoutMeaning(before, cid, key);
      UpdateAndRemove(BaselinesOf(before, cid), key, r.key, r.snap);
      if r.cluster == cid && r.key == key {
        assert Without(rows, cid, key) == Without(before, cid, key);
      } else {
        AddRow(Without(before, cid, key), r, cid);
      }
    }
  }

  lemma {:induction false} WithoutElsewhere(rows: seq<Row>, cid: string, key: Key, other: string)
    requires other != cid
    ensures BaselinesOf(Without(rows, cid, key), other) == BaselinesOf(rows, other)
  {
    if rows != [] {
      var before, r := rows[..|rows| - 1], rows[|rows| - 1];
      WithoutElsewhere(before, cid, key, other);
      if r.cluster == cid && r.key == key {
        assert Without(rows, cid, key) == Without(before, cid, key);
      } else {
        AddRow(Without(before, cid, key), r, other);
      }
    }
  }

  lemma AddRow(rows: seq<Row>, r: Row, cid: string)
    ensures BaselinesOf(rows + [r], cid)
            == if r.cluster == cid then BaselinesOf(rows, cid)[r.key := r.snap] else BaselinesOf(rows, cid)
  {
    assert (rows + [r])[..|rows|] == rows;
  }

  lemma SetRowMeaning(rows: seq<Row>, cid: string, key: Key, snap: Doc, other: string)
    ensures BaselinesOf(SetRow(rows, cid, key, snap), other)
            == if other == cid then BaselinesOf(rows, other)[key := snap] else BaselinesOf(rows, other)
  {
    if other == cid { WithoutMeaning(rows, cid, key); } else { WithoutElsewhere(rows, cid, key, other); }
    AddRow(Without(rows, cid, key), Row(cid, key, snap), other);
  }

  /** The last snapshot fetched for each key. */
  function Latest(state: seq<Item>): map<Key, Doc> {
    if state == [] then map[] else Latest(state[..|state| - 1])[state[|state| - 1].key := state[|state| - 1].snap]
  }

  lemma {:induction false} WithoutClusterMeaning(rows: seq<Row>, cid: string, other: string)
    ensures BaselinesOf(WithoutCluster(rows, cid), other) == if other == cid then map[] else BaselinesOf(rows, other)
  {
    if rows != [] {
      var before, r := rows[..|rows| - 1], rows[|rows| - 1];
      WithoutClusterMeaning(before, cid, other);
      if r.cluster == cid {
        assert WithoutCluster(rows, cid) == WithoutCluster(before, cid);
      } else {
        AddRow(WithoutCluster(before, cid), r, other);
      }
    }
  }

  lemma Merge(m: map<Key, Doc>, n: map<Key, Doc>, k: Key, v: Doc)
    ensures (m + n)[k := v] == m + n[k := v]
    ensures m + map[] == m
  {
  }

  lemma {:induction false} AddRows(rows: seq<Row>, cid: string, state: seq<Item>)
    ensures BaselinesOf(rows + RowsOf(cid, state), cid) == BaselinesOf(rows, cid) + Latest(state)
  {
    if state == [] {
      assert rows + [] == rows;
    } else {
      var before, x := state[..|state| - 1], state[|state| - 1];
      AddRows(rows, cid, before);
      assert rows + RowsOf(cid, state) == (rows + RowsOf(cid, before)) + [Row(cid, x.key, x.snap)];
      AddRow(rows + RowsOf(cid, before), Row(cid, x.key, x.snap), cid);
      Merge(BaselinesOf(rows, cid), Latest(before), x.key, x.snap);
    }
  }

  lemma {:induction false} AddRowsElsewhere(rows: seq<Row>, cid: string, state: seq<Item>, other: string)
    requires other != cid
    ensures BaselinesOf(rows + RowsOf(cid, state), other) == BaselinesOf(rows, other)
  {
    if state == [] {
      assert rows + [] == rows;
    } else {
      var before, x := state[..|state| - 1], state[|state| - 1];
      AddRowsElsewhere(rows, cid, before, other);
      assert rows + RowsOf(cid, state) == (rows + RowsOf(cid, before)) + [Row(cid, x.key, x.snap)];
      AddRow(rows + RowsOf(cid, before), Row(cid, x.key, x.snap), other);
    }
  }

  /** A reset replaces one cluster's baselines by the fetched state and leaves every other cluster's alone. */
  lemma ResetMeaning(rows: seq<Row>, cid: string, state: seq<Item>, other: string)
    ensures BaselinesOf(WithoutCluster(rows, cid) + RowsOf(cid, state), other)
            == if other == cid then Latest(state) else BaselinesOf(rows, other)
  {
    WithoutClusterMeaning(rows, cid, other);
    if other == cid {
      AddRows(WithoutCluster(rows, cid), cid, state);
    } else {
      AddRowsElsewhere(WithoutCluster(rows, cid), cid, state, other);
    }
  }

  lemma UpdateUnder(m: map<Key, Doc>, base: map<Key, Doc>, k: Key, v: Doc)
    ensures m[k := v] + base == if k in base then m + base else (m + base)[k := v]
  {
  }

  lemma {:induction false} SeededMeaning(rows: seq<Row>, cid: string, base: map<Key, Doc>, state: seq<Item>)
    requires base == BaselinesOf(rows, cid)
    ensures BaselinesOf(Seeded(rows, cid, base, state, true), cid) == Latest(state) + base
    ensures Seeded(rows, cid, base, state, false) == rows
  {
    if state != [] {
      var before, x := state[..|state| - 1], state[|state| - 1];
      SeededMeaning(rows, cid, base, before);
      SetRowMeaning(Seeded(rows, cid, base, before, true), cid, x.key, x.snap, cid);
      UpdateUnder(Latest(before), base, x.key, x.snap);
    }
  }

  /** What a seeding scan does to the table: a key that had a baseline keeps it, a fetched one that had none gets the
      snapshot of the last object fetched for it, and no other cluster's baselines change. A scan that does not seed
      changes nothing. */
  lemma ScanSeeds(rows: seq<Row>, cid: string, state: seq<Item>, other: string, key: Key)
    requires other != cid
    ensures var base := BaselinesOf(rows, cid);
            var after := BaselinesOf(RowsAfterScan(rows, cid, Answers(state), true), cid);
            && (key in after <==> key in base || exists i: nat :: i < |state| && state[i].key == key)
            && (key in base ==> after[key] == base[key])
            && (key in after && key !in base ==> exists i: nat :: LastFetched(state, key, after[key], i))
    ensures BaselinesOf(RowsAfterScan(rows, cid, Answers(state), true), other) == BaselinesOf(rows, other)
    ensures RowsAfterScan(rows, cid, Answers(state), false) == rows
  {
    var base := BaselinesOf(rows, cid);
    SeededMeaning(rows, cid, base, state);
    SeededElsewhere(rows, cid, base, state, other);
    LatestIsLast(state, key);
  }

  ghost predicate LastFetched(state: seq<Item>, key: Key, snap: Doc, i: nat) {
    i < |state| && state[i] == Item(key, snap) && forall j :: i < j < |state| ==> state[j].key != key
  }

  lemma {:induction false} LatestIsLast(state: seq<Item>, key: Key)
    ensures key in Latest(state) <==> exists i: nat :: i < |state| && state[i].key == key
    ensures key in Latest(state) ==> exists i: nat :: LastFetched(state, key, Latest(state)[key], i)
  {
    if state != [] {
      var n := |state| - 1;
      var before := state[..n];
      LatestIsLast(before, key);
      if state[n].key == key {
        assert LastFetched(state, key, state[n].snap, n);
      } else {
        if key in Latest(before) {
          var i: nat :| LastFetched(before, key, Latest(before)[key], i);
          assert LastFetched(state, key, Latest(before)[key], i);
        }
        if i: nat :| i < |state| && state[i].key == key { assert before[i].key == key; }
      }
    }
  }

  lemma {:induction false} SeededElsewhere(rows: seq<Row>, cid: string, base: map<Key, Doc>, state: seq<Item>,
      other: string)
    requires other != cid
    ensures BaselinesOf(Seeded(rows, cid, base, state, true), other) == BaselinesOf(rows, other)
  {
    if state != [] {
      var before, x := state[..|state| - 1], state[|state| - 1];
      SeededElsewhere(rows, cid, base, before, other);
      SetRowMeaning(Seeded(rows, cid, base, before, true), cid, x.key, x.snap, other);
    }
  }

  /** The removed scopes are those of the events for vanished objects, in order; the seed count is the number of fetched
      objects without a baseline. */
  lemma {:induction false} RemovedMeaning(cid: string, base: map<Key, Doc>, order: seq<Key>, seen: set<Key>)
    ensures var gone, removed := GoneEvents(cid, base, order, seen), GoneScopes(base, order, seen);
            |removed| == |gone| && forall i :: 0 <= i < |gone| ==> removed[i] == gone[i].key.scope
  {
    if order != [] { RemovedMeaning(cid, base, order[..|order| - 1], seen); }
  }

  lemma {:induction false} SeedCountMeaning(base: map<Key, Doc>, state: seq<Item>)
    ensures SeedCount(base, state, true) == |set i | 0 <= i < |state| && state[i].key !in base|
    ensures SeedCount(base, state, false) == 0
  {
    if state != [] {
      var n := |state| - 1;
      var before := state[..n];
      SeedCountMeaning(base, before);
      var earlier := set i | 0 <= i < n && before[i].key !in base;
      var all := set i | 0 <= i < |state| && state[i].key !in base;
      assert all == earlier + if state[n].key !in base then {n} else {};
    }
  }

  lemma {:induction false} LatestMeaning(state: seq<Item>)
    ensures Latest(state).Keys == SeenKeys(state)
    ensures forall k :: k in Latest(state) ==> Item(k, Latest(state)[k]) in state
    ensures forall x :: x in state ==> x.key in SeenKeys(state)
  {
    if state != [] {
      LatestMeaning(state[..|state| - 1]);
      assert state == state[..|state| - 1] + [state[|state| - 1]];
    }
  }

  // ---------------------------------------------------------------- what a scan reports

  lemma {:induction false} DriftedMeaning(cid: string, base: map<Key, Doc>, state: seq<Item>, e: Event)
    ensures e in Drifted(cid, base, state) <==> exists x :: x in state && e in EventsFor(cid, base, x)
  {
    if state != [] {
      var before, last := state[..|state| - 1], state[|state| - 1];
      DriftedMeaning(cid, base, before, e);
      assert state == before + [last];
    }
  }

  lemma {:induction false} GoneMeaning(cid: string, base: map<Key, Doc>, order: seq<Key>, seen: set<Key>, e: Event)
    ensures e in GoneEvents(cid, base, order, seen)
            <==> e.key in order && e.key in base && e.key !in seen && e == GoneEvent(cid, e.key, base[e.key])
  {
    if order != [] {
      GoneMeaning(cid, base, order[..|order| - 1], seen, e);
      assert order == order[..|order| - 1] + [order[|order| - 1]];
    }
  }

  ghost predicate Reported(found: seq<Event>, key: Key) { exists e :: e in found && e.key == key }

  lemma GoneIsReported(rows: seq<Row>, cid: string, state: seq<Item>, key: Key)
    requires key in BaselinesOf(rows, cid) && forall x :: x in state ==> x.key != key
    ensures Reported(Found(rows, cid, state), key)
  {
    var base := BaselinesOf(rows, cid);
    var e := GoneEvent(cid, key, base[key]);
    OrderHasKeys(rows, cid);
    LatestCover(state, key);
    GoneMeaning(cid, base, OrderOf(rows, cid), SeenKeys(state), e);
    assert e in Found(rows, cid, state);
  }

  lemma DriftIsReported(rows: seq<Row>, cid: string, state: seq<Item>, x: Item)
    requires x in state && x.key in BaselinesOf(rows, cid)
    requires !ReadAlike(FieldsOf(BaselinesOf(rows, cid)[x.key]), FieldsOf(x.snap))
    ensures Reported(Found(rows, cid, state), x.key)
  {
    var base := BaselinesOf(rows, cid);
    QuietIff(FieldsOf(base[x.key]), FieldsOf(x.snap));
    var e := EventsFor(cid, base, x)[0];
    assert e in EventsFor(cid, base, x);
    DriftedMeaning(cid, base, state, e);
    assert e in Found(rows, cid, state);
  }

  /** A key with drift to report: it has a baseline, and an object that reads unlike it or is gone. */
  ghost predicate Deserves(base: map<Key, Doc>, state: seq<Item>, key: Key) {
    key in base && ((forall x :: x in state ==> x.key != key)
                    || exists x :: x in state && x.key == key && !ReadAlike(FieldsOf(base[key]), FieldsOf(x.snap)))
  }

  lemma ReportIsDeserved(rows: seq<Row>, cid: string, state: seq<Item>, e: Event)
    requires e in Found(rows, cid, state)
    ensures Deserves(BaselinesOf(rows, cid), state, e.key)
  {
    var base := BaselinesOf(rows, cid);
    if e in Drifted(cid, base, state) {
      DriftedMeaning(cid, base, state, e);
      var x :| x in state && e in EventsFor(cid, base, x);
      QuietIff(FieldsOf(base[x.key]), FieldsOf(x.snap));
    } else {
      GoneMeaning(cid, base, OrderOf(rows, cid), SeenKeys(state), e);
      LatestCover(state, e.key);
    }
  }

  /** What an event says: the report that turns the baseline into a fetched object, or a vanished one's baseline. */
  ghost predicate Explains(base: map<Key, Doc>, state: seq<Item>, e: Event) {
    && e.key in base
    && match e.change
       case Fields(ds) =>
         exists x :: x in state && x.key == e.key && ds == DiffAgainst(base, x) != []
                     && (NoStrayNull(FieldsOf(base[e.key]), FieldsOf(x.snap)) ==>
                           Apply(FieldsOf(base[e.key]), ds) == FieldsOf(x.snap))
       case Gone(before) => before == base[e.key] && forall x :: x in state ==> x.key != e.key
  }

  /** Every event of a scan is open, belongs to the cluster and explains what changed. */
  lemma EventsExplain(rows: seq<Row>, cid: string, state: seq<Item>, e: Event)
    requires e in Found(rows, cid, state)
    ensures e.cluster == cid && e.status.Open? && Explains(BaselinesOf(rows, cid), state, e)
  {
    var base := BaselinesOf(rows, cid);
    if e in Drifted(cid, base, state) {
      DriftedMeaning(cid, base, state, e);
      var x :| x in state && e in EventsFor(cid, base, x);
      RoundTripIff(FieldsOf(base[x.key]), FieldsOf(x.snap));
    } else {
      GoneMeaning(cid, base, OrderOf(rows, cid), SeenKeys(state), e);
      LatestCover(state, e.key);
    }
  }

  /** A key is reported exactly when an object fetched for it reads unlike its baseline, or its baseline's object is
      gone. */
  lemma ScanReportsExactly(rows: seq<Row>, cid: string, state: seq<Item>, key: Key)
    ensures Reported(Found(rows, cid, state), key) <==> Deserves(BaselinesOf(rows, cid), state, key)
  {
    var base := BaselinesOf(rows, cid);
    if Reported(Found(rows, cid, state), key) {
      var e :| e in Found(rows, cid, state) && e.key == key;
      ReportIsDeserved(rows, cid, state, e);
    }
    if Deserves(base, state, key) {
      if x :| x in state && x.key == key && !ReadAlike(FieldsOf(base[key]), FieldsOf(x.snap)) {
        DriftIsReported(rows, cid, state, x);
      } else {
        GoneIsReported(rows, cid, state, key);
      }
    }
  }

  lemma LatestCover(state: seq<Item>, key: Key)
    ensures key in SeenKeys(state) <==> exists x :: x in state && x.key == key
  {
    LatestMeaning(state);
    if key in SeenKeys(state) { assert Item(key, Latest(state)[key]) in state; }
  }

  /** Objects fetched under one key read alike; in particular, keys fetched once each. */
  ghost predicate Consistent(state: seq<Item>) {
    forall x, y :: x in state && y in state && x.key == y.key ==> ReadAlike(FieldsOf(x.snap), FieldsOf(y.snap))
  }

  ghost predicate DistinctKeys(state: seq<Item>) {
    forall i, j :: 0 <= i < j < |state| ==> state[i].key != state[j].key
  }

  lemma DistinctIsConsistent(state: seq<Item>)
    requires DistinctKeys(state)
    ensures Consistent(state)
  {
    forall x, y | x in state && y in state && x.key == y.key ensures x == y {
      var i :| 0 <= i < |state| && state[i] == x;
      var j :| 0 <= j < |state| && state[j] == y;
      if i < j { assert state[i].key != state[j].key; }
    }
  }

  lemma NoEventsMeansNoKeys(found: seq<Event>)
    ensures found == [] <==> forall k :: !Reported(found, k)
  {
    if found != [] { assert found[0] in found; assert Reported(found, found[0].key); }
  }

  /** With baselines equal to the latest snapshots, a scan of the same state is quiet exactly when the state is
      consistent. */
  lemma LatestQuietIff(rows: seq<Row>, cid: string, state: seq<Item>)
    requires BaselinesOf(rows, cid) == Latest(state)
    ensures Found(rows, cid, state) == [] <==> Consistent(state)
  {
    var base := Latest(state);
    LatestMeaning(state);
    NoEventsMeansNoKeys(Found(rows, cid, state));
    if Consistent(state) {
      forall k ensures !Reported(Found(rows, cid, state), k) {
        ScanReportsExactly(rows, cid, state, k);
        if k in base { assert Item(k, base[k]) in state; }
      }
    }
    if Found(rows, cid, state) == [] {
      forall x, y | x in state && y in state && x.key == y.key ensures ReadAlike(FieldsOf(x.snap), FieldsOf(y.snap)) {
        ScanReportsExactly(rows, cid, state, x.key);
        assert ReadAlike(FieldsOf(base[x.key]), FieldsOf(x.snap)) && ReadAlike(FieldsOf(base[x.key]), FieldsOf(y.snap));
        forall k ensures Get(FieldsOf(x.snap), k) == Get(FieldsOf(y.snap), k) {
          assert Get(FieldsOf(base[x.key]), k) == Get(FieldsOf(x.snap), k);
        }
      }
    }
  }

  /** Right after a reset, scanning the same state records nothing exactly when the state is consistent. */
  lemma QuietAfterReset(rows: seq<Row>, cid: string, state: seq<Item>)
    ensures Found(WithoutCluster(rows, cid) + RowsOf(cid, state), cid, state) == [] <==> Consistent(state)
    ensures DistinctKeys(state) ==> Found(WithoutCluster(rows, cid) + RowsOf(cid, state), cid, state) == []
  {
    ResetMeaning(rows, cid, state, cid);
    LatestQuietIff(WithoutCluster(rows, cid) + RowsOf(cid, state), cid, state);
    if DistinctKeys(state) { DistinctIsConsistent(state); }
  }

  /** Seeding a cluster without baselines records nothing; the next scan of the same state is quiet exactly when the
      state is consistent. */
  lemma QuietAfterSeeding(rows: seq<Row>, cid: string, state: seq<Item>)
    requires BaselinesOf(rows, cid) == map[]
    ensures Found(rows, cid, state) == []
    ensures Found(Seeded(rows, cid, map[], state, true), cid, state) == [] <==> Consistent(state)
  {
    NoEventsMeansNoKeys(Found(rows, cid, state));
    forall k ensures !Reported(Found(rows, cid, state), k) { ScanReportsExactly(rows, cid, state, k); }
    SeededMeaning(rows, cid, map[], state);
    assert Latest(state) + map[] == Latest(state);
    LatestQuietIff(Seeded(rows, cid, map[], state, true), cid, state);
  }

  /** Scanning never settles a drift: whatever the state, a key reported once is reported again by the next scan of the
      same state, whether or not the first scan seeded baselines. */
  lemma ReportedAgain(rows: seq<Row>, cid: string, state: seq<Item>, autobaseline: bool, key: Key)
    requires Reported(Found(rows, cid, state), key)
    ensures Reported(Found(Seeded(rows, cid, BaselinesOf(rows, cid), state, autobaseline), cid, state), key)
  {
    var base := BaselinesOf(rows, cid);
    var again := Seeded(rows, cid, base, state, autobaseline);
    SeededMeaning(rows, cid, base, state);
    ScanReportsExactly(rows, cid, state, key);
    ScanReportsExactly(again, cid, state, key);
    DeservesDepends(base, BaselinesOf(again, cid), state, key);
  }

  /** Two objects fetched under the key read unlike each other. */
  ghost predicate Disagrees(state: seq<Item>, key: Key) {
    exists x, y :: Item(key, x) in state && Item(key, y) in state && !ReadAlike(FieldsOf(x), FieldsOf(y))
  }

  /** The next scan reports the same keys, and those seeded by the first that were fetched with disagreeing objects. */
  lemma RescanRepeats(rows: seq<Row>, cid: string, state: seq<Item>, autobaseline: bool, key: Key)
    ensures var base := BaselinesOf(rows, cid);
            Reported(Found(Seeded(rows, cid, base, state, autobaseline), cid, state), key)
            <==> Reported(Found(rows, cid, state), key) || (autobaseline && key !in base && Disagrees(state, key))
  {
    var base := BaselinesOf(rows, cid);
    var again := Seeded(rows, cid, base, state, autobaseline);
    SeededMeaning(rows, cid, base, state);
    ScanReportsExactly(rows, cid, state, key);
    ScanReportsExactly(again, cid, state, key);
    if autobaseline && key !in base {
      SeededKeyDeserves(state, key, BaselinesOf(again, cid));
    } else {
      DeservesDepends(base, BaselinesOf(again, cid), state, key);
    }
  }

  lemma SeededKeyDeserves(state: seq<Item>, key: Key, base: map<Key, Doc>)
    requires (key in base <==> key in Latest(state)) && (key in base ==> base[key] == Latest(state)[key])
    ensures Deserves(base, state, key) <==> Disagrees(state, key)
  {
    LatestMeaning(state);
    LatestCover(state, key);
    if key in base {
      var last := Item(key, base[key]);
      assert last in state && last.key == key;
      if x :| x in state && x.key == key && !ReadAlike(FieldsOf(base[key]), FieldsOf(x.snap)) {
        assert Item(key, x.snap) == x && !ReadAlike(FieldsOf(base[key]), FieldsOf(x.snap));
      }
      if x, y :| Item(key, x) in state && Item(key, y) in state && !ReadAlike(FieldsOf(x), FieldsOf(y)) {
        AlikeToOne(FieldsOf(base[key]), FieldsOf(x), FieldsOf(y));
        assert Item(key, x).key == Item(key, y).key == key;
      }
    }
  }

  lemma AlikeToOne(a: map<string, Value>, b: map<string, Value>, c: map<string, Value>)
    requires !ReadAlike(b, c)
    ensures !ReadAlike(a, b) || !ReadAlike(a, c)
  {
    var k :| Get(b, k) != Get(c, k);
    assert Get(a, k) != Get(b, k) || Get(a, k) != Get(c, k);
  }

  lemma {:induction false} FirstMeaning(state: seq<Item>, key: Key)
    ensures FirstOf(state, key).Some? ==> Item(key, FirstOf(state, key).value) in state
    ensures FirstOf(state, key).None? ==> forall x :: x in state ==> x.key != key
  {
    if state != [] {
      FirstMeaning(state[1..], key);
      assert state == [state[0]] + state[1..];
    }
  }

  lemma DeservesDepends(base: map<Key, Doc>, after: map<Key, Doc>, state: seq<Item>, k: Key)
    requires (k in base <==> k in after) && (k in base ==> base[k] == after[k])
    ensures Deserves(base, state, k) <==> Deserves(after, state, k)
  {
  }

  lemma FirstSatisfies(state: seq<Item>, key: Key, base: map<Key, Doc>)
    requires Consistent(state) && FirstOf(state, key).Some? && key in base && base[key] == FirstOf(state, key).value
    ensures !Deserves(base, state, key)
  {
    FirstMeaning(state, key);
    assert Item(key, base[key]) in state;
  }

  /** Promoting a change to the baseline silences its key, and only its key; a vanished object stays reported. */
  lemma PromoteSilences(rows: seq<Row>, cid: string, key: Key, state: seq<Item>, k: Key)
    requires Consistent(state)
    ensures var after := Promoted(rows, cid, key, state);
            Reported(Found(after, cid, state), k)
            <==> Reported(Found(rows, cid, state), k) && (k == key ==> FirstOf(state, key).None?)
  {
    if FirstOf(state, key).Some? {
      var after := Promoted(rows, cid, key, state);
      ScanReportsExactly(rows, cid, state, k);
      ScanReportsExactly(after, cid, state, k);
      SetRowMeaning(rows, cid, key, FirstOf(state, key).value, cid);
      if k == key {
        FirstSatisfies(state, key, BaselinesOf(after, cid));
      } else {
        DeservesDepends(BaselinesOf(rows, cid), BaselinesOf(after, cid), state, k);
      }
    }
  }

  /** After a reset no event of the cluster is open, and nothing else about the events has changed. */
  lemma {:induction false} ResetClosesEvents(events: seq<Event>, cid: string)
    ensures var after := Supersede(events, cid);
            && |after| == |events|
            && forall i :: 0 <= i < |events| ==>
                 && (after[i].cluster == cid ==> !after[i].status.Open?)
                 && after[i].(status := events[i].status) == events[i]
                 && (after[i] != events[i] ==>
                       events[i].cluster == cid && events[i].status.Open? && after[i].status.Superseded?)
  {
    if events != [] { ResetClosesEvents(events[..|events| - 1], cid); }
  }
}
