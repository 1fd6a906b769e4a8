/** Configuration drift: cleaning a snapshot and comparing it with a baseline. */
module Drift {
  import opened TextOrder

  datatype Value = Null | Text(s: string) | Other(id: int)

  /** A decoded snapshot; anything that is not an object compares as an empty one. */
  datatype Doc = Object(m: map<string, Value>) | Plain(value: Value)

  function FieldsOf(d: Doc): map<string, Value> { if d.Object? then d.m else map[] }

  function Get(m: map<string, Value>, k: string): Value { if k in m then m[k] else Null }

  // ---------------------------------------------------------------- cleaning

  const CSV_KEYS := {"content", "tags", "nodes"}

  function CleanValue(k: string, v: Value): Value { if k in CSV_KEYS && v.Text? then Text(Normalise(v.s)) else v }

  function Clean(m: map<string, Value>, volatile: set<string>): map<string, Value> {
    map k | k in m && k !in volatile :: CleanValue(k, m[k])
  }

  method StripVolatile(d: Doc, volatile: set<string>) returns (out: Doc)
    ensures out == if d.Object? then Object(Clean(d.m, volatile)) else d
  {
    if !d.Object? { return d; }
    var kept: map<string, Value> := map[];
    var rest := d.m.Keys;
    while rest != {}
      invariant rest <= d.m.Keys
      invariant kept == map k | k in d.m && k !in volatile && k !in rest :: CleanValue(k, d.m[k])
      decreases |rest|
    {
      var k :| k in rest;
      rest := rest - {k};
      if k !in volatile {
        var v := d.m[k];
        if k in CSV_KEYS && v.Text? && ',' in v.s {
          v := Text(Join(Sort(Kept(Split(v.s)))));
        }
        kept := kept[k := v];
      }
    }
    out := Object(kept);
  }

  // ---------------------------------------------------------------- comparing

  datatype Op = Removed | Added | Changed

  datatype Diff = Diff(path: string, op: Op, before: Value, after: Value)

  function Entry(k: string, b: map<string, Value>, c: map<string, Value>): seq<Diff> {
    if Get(b, k) == Get(c, k) then []
    else if k in b && k !in c then [Diff(k, Removed, b[k], Null)]
    else if k !in b && k in c then [Diff(k, Added, Null, c[k])]
    else [Diff(k, Changed, Get(b, k), Get(c, k))]
  }

  function Entries(keys: seq<string>, b: map<string, Value>, c: map<string, Value>): seq<Diff> {
    if keys == [] then [] else Entries(keys[..|keys| - 1], b, c) + Entry(keys[|keys| - 1], b, c)
  }

  ghost function FlatDiff(b: map<string, Value>, c: map<string, Value>): seq<Diff> {
    Entries(KeysInOrder(b.Keys + c.Keys), b, c)
  }

  /** One round of the comparison: what one key adds to the report. */
  method CompareKey(k: string, b: map<string, Value>, c: map<string, Value>) returns (found: seq<Diff>)
    ensures found == Entry(k, b, c)
  {
    found := [];
    var x, y := Get(b, k), Get(c, k);
    if x != y {
      if k in b && k !in c {
        found := [Diff(k, Removed, x, Null)];
      } else if k !in b && k in c {
        found := [Diff(k, Added, Null, y)];
      } else {
        found := [Diff(k, Changed, x, y)];
      }
    }
  }

  method CompareAll(keys: seq<string>, b: map<string, Value>, c: map<string, Value>) returns (diffs: seq<Diff>)
    ensures diffs == Entries(keys, b, c)
  {
    diffs := [];
    for i := 0 to |keys|
      invariant diffs == Entries(keys[..i], b, c)
    {
      assert keys[..i + 1][..i] == keys[..i];
      var found := CompareKey(keys[i], b, c);
      diffs := diffs + found;
    }
    assert keys[..|keys|] == keys;
  }

  method ComputeDiff(baseline: Doc, current: Doc) returns (diffs: seq<Diff>)
    ensures diffs == FlatDiff(FieldsOf(baseline), FieldsOf(current))
  {
    var b, c := FieldsOf(baseline), FieldsOf(current);
    var keys := SortedKeys(b.Keys + c.Keys);
    diffs := CompareAll(keys, b, c);
  }

  ghost predicate InPathOrder(ds: seq<Diff>) {
    forall i, j :: 0 <= i < j < |ds| ==> Leq(ds[i].path, ds[j].path) && ds[i].path != ds[j].path
  }

  lemma {:induction false} EntriesMeaning(keys: seq<string>, b: map<string, Value>, c: map<string, Value>, d: Diff)
    ensures d in Entries(keys, b, c) <==> d.path in keys && Entry(d.path, b, c) == [d]
  {
    if keys != [] {
      var n := |keys| - 1;
      EntriesMeaning(keys[..n], b, c, d);
      assert keys == keys[..n] + [keys[n]];
    }
  }

  lemma {:induction false} EntriesOrder(keys: seq<string>, b: map<string, Value>, c: map<string, Value>)
    requires Ascending(keys) && forall i, j :: 0 <= i < j < |keys| ==> keys[i] != keys[j]
    ensures InPathOrder(Entries(keys, b, c))
  {
    if keys != [] {
      var n := |keys| - 1;
      EntriesOrder(keys[..n], b, c);
      var ds := Entries(keys[..n], b, c);
      forall i | 0 <= i < |ds| ensures Leq(ds[i].path, keys[n]) && ds[i].path != keys[n] {
        EntriesMeaning(keys[..n], b, c, ds[i]);
        assert ds[i].path in keys[..n];
      }
    }
  }

  lemma DiffMember(b: map<string, Value>, c: map<string, Value>, d: Diff)
    ensures d in FlatDiff(b, c) <==> Entry(d.path, b, c) == [d]
  {
    var keys := KeysInOrder(b.Keys + c.Keys);
    EntriesMeaning(keys, b, c, d);
    if d.path !in keys { assert d.path !in b && d.path !in c; }
  }

  lemma DiffOrder(b: map<string, Value>, c: map<string, Value>)
    ensures InPathOrder(FlatDiff(b, c))
  {
    EntriesOrder(KeysInOrder(b.Keys + c.Keys), b, c);
  }

  /** The report lists exactly the differing keys, each once and in order. */
  lemma DiffIsExact(b: map<string, Value>, c: map<string, Value>)
    ensures forall d :: d in FlatDiff(b, c) <==> Get(b, d.path) != Get(c, d.path) && Entry(d.path, b, c) == [d]
    ensures InPathOrder(FlatDiff(b, c))
  {
    forall d: Diff ensures d in FlatDiff(b, c) <==> Get(b, d.path) != Get(c, d.path) && Entry(d.path, b, c) == [d] {
      DiffMember(b, c, d);
    }
    DiffOrder(b, c);
  }

  /** Two snapshots that read alike under every key; a null reads like a missing key. */
  ghost predicate ReadAlike(b: map<string, Value>, c: map<string, Value>) { forall k :: Get(b, k) == Get(c, k) }

  lemma DifferenceIsListed(b: map<string, Value>, c: map<string, Value>, k: string)
    ensures Get(b, k) != Get(c, k) ==> FlatDiff(b, c) != []
  {
    if Get(b, k) != Get(c, k) { DiffMember(b, c, Entry(k, b, c)[0]); }
  }

  lemma QuietIff(b: map<string, Value>, c: map<string, Value>)
    ensures FlatDiff(b, c) == [] <==> ReadAlike(b, c)
  {
    if FlatDiff(b, c) == [] {
      forall k ensures Get(b, k) == Get(c, k) { DifferenceIsListed(b, c, k); }
    } else {
      DiffMember(b, c, FlatDiff(b, c)[0]);
    }
  }

  // ---------------------------------------------------------------- applying and undoing a report

  function ApplyOne(m: map<string, Value>, d: Diff): map<string, Value> {
    if d.op.Removed? then m - {d.path} else m[d.path := d.after]
  }

  function Apply(m: map<string, Value>, ds: seq<Diff>): map<string, Value> {
    if ds == [] then m else ApplyOne(Apply(m, ds[..|ds| - 1]), ds[|ds| - 1])
  }

  function UndoOne(m: map<string, Value>, d: Diff): map<string, Value> {
    if d.op.Added? then m - {d.path} else m[d.path := d.before]
  }

  function Undo(m: map<string, Value>, ds: seq<Diff>): map<string, Value> {
    if ds == [] then m else UndoOne(Undo(m, ds[..|ds| - 1]), ds[|ds| - 1])
  }

  /** `m` is `from`, except that the keys that read differently are taken from `to`. */
  ghost predicate Moved(m: map<string, Value>, keys: seq<string>, from: map<string, Value>, to: map<string, Value>) {
    && (forall k :: k in m <==> if k in keys && Get(from, k) != Get(to, k) then k in to else k in from)
    && (forall k :: k in m ==> m[k] == if k in keys && Get(from, k) != Get(to, k) then to[k] else from[k])
  }

  lemma MoveOn(m: map<string, Value>, keys: seq<string>, k: string, from: map<string, Value>, to: map<string, Value>)
    requires Moved(m, keys, from, to)
    ensures var after := if Get(from, k) == Get(to, k) then m else if k in to then m[k := to[k]] else m - {k};
            Moved(after, keys + [k], from, to)
  {
    assert forall x :: x in keys + [k] <==> x in keys || x == k;
  }

  lemma {:induction false} ApplyEntries(keys: seq<string>, b: map<string, Value>, c: map<string, Value>)
    ensures Moved(Apply(b, Entries(keys, b, c)), keys, b, c)
  {
    if keys != [] {
      var n := |keys| - 1;
      ApplyEntries(keys[..n], b, c);
      ApplyMore(b, Entries(keys[..n], b, c), keys[n], b, c);
      MoveOn(Apply(b, Entries(keys[..n], b, c)), keys[..n], keys[n], b, c);
      assert keys == keys[..n] + [keys[n]];
    }
  }

  lemma ApplyMore(m: map<string, Value>, ds: seq<Diff>, k: string, b: map<string, Value>, c: map<string, Value>)
    ensures Apply(m, ds + Entry(k, b, c))
            == var x := Apply(m, ds); if Get(b, k) == Get(c, k) then x else if k in c then x[k := c[k]] else x - {k}
  {
    var e := Entry(k, b, c);
    if e == [] { assert ds + e == ds; } else { assert (ds + e)[..|ds|] == ds; }
  }

  lemma {:induction false} UndoEntries(keys: seq<string>, b: map<string, Value>, c: map<string, Value>)
    ensures Moved(Undo(c, Entries(keys, b, c)), keys, c, b)
  {
    if keys != [] {
      var n := |keys| - 1;
      UndoEntries(keys[..n], b, c);
      UndoMore(c, Entries(keys[..n], b, c), keys[n], b, c);
      MoveOn(Undo(c, Entries(keys[..n], b, c)), keys[..n], keys[n], c, b);
      assert keys == keys[..n] + [keys[n]];
    }
  }

  lemma UndoMore(m: map<string, Value>, ds: seq<Diff>, k: string, b: map<string, Value>, c: map<string, Value>)
    ensures Undo(m, ds + Entry(k, b, c))
            == var x := Undo(m, ds); if Get(b, k) == Get(c, k) then x else if k in b then x[k := b[k]] else x - {k}
  {
    var e := Entry(k, b, c);
    if e == [] { assert ds + e == ds; } else { assert (ds + e)[..|ds|] == ds; }
  }

  /** No key is present on one side only with a null value. */
  ghost predicate NoStrayNull(b: map<string, Value>, c: map<string, Value>) {
    && (forall k :: k in b && k !in c ==> b[k] != Null)
    && (forall k :: k in c && k !in b ==> c[k] != Null)
  }

  /** The report turns the baseline into the current snapshot and back, exactly when no null is present on one side
      only. */
  lemma RoundTripIff(b: map<string, Value>, c: map<string, Value>)
    ensures Apply(b, FlatDiff(b, c)) == c <==> NoStrayNull(b, c)
    ensures Undo(c, FlatDiff(b, c)) == b <==> NoStrayNull(b, c)
  {
    var keys := KeysInOrder(b.Keys + c.Keys);
    ApplyEntries(keys, b, c);
    UndoEntries(keys, b, c);
    var m, u := Apply(b, FlatDiff(b, c)), Undo(c, FlatDiff(b, c));
    if NoStrayNull(b, c) {
      SameWithoutStrayNulls(m, keys, b, c);
      SameWithoutStrayNulls(u, keys, c, b);
    } else {
      StrayNullStays(m, keys, b, c);
      StrayNullStays(u, keys, c, b);
    }
  }

  /** A key that held null and vanished leaves no trace in the report. */
  lemma NullIsLost(k: string)
    ensures FlatDiff(map[k := Null], map[]) == [] && Apply(map[k := Null], FlatDiff(map[k := Null], map[])) != map[]
  {
    QuietIff(map[k := Null], map[]);
    assert k in map[k := Null];
  }

  lemma SameWithoutStrayNulls(m: map<string, Value>, keys: seq<string>, from: map<string, Value>,
      to: map<string, Value>)
    requires Moved(m, keys, from, to) && NoStrayNull(from, to) && forall k :: k in from.Keys + to.Keys ==> k in keys
    ensures m == to
  {
    forall k ensures (k in m <==> k in to) && (k in m ==> m[k] == to[k]) {
      if k in from || k in to { assert k in keys; }
    }
  }

  lemma StrayNullStays(m: map<string, Value>, keys: seq<string>, from: map<string, Value>, to: map<string, Value>)
    requires Moved(m, keys, from, to) && !NoStrayNull(from, to)
    ensures m != to
  {
    if k :| k in from && k !in to && from[k] == Null {
      assert k in m;
    } else {
      var k :| k in to && k !in from && to[k] == Null;
      assert k !in m;
    }
  }

  // ---------------------------------------------------------------- what cleaning hides

  /** Values that clean to the same: equal, or two comma lists with the same items. */
  ghost predicate SameReading(k: string, x: Value, y: Value) {
    x == y || (ListKey(k) && x.Text? && y.Text? && multiset(Items(x.s)) == multiset(Items(y.s)))
  }

  /** The keys whose values are comma lists. */
  predicate ListKey(k: string) { k == "content" || k == "tags" || k == "nodes" }

  lemma ListKeys(k: string)
    ensures k in CSV_KEYS <==> ListKey(k)
  {
  }

  lemma CleanValueIff(k: string, x: Value, y: Value)
    ensures CleanValue(k, x) == CleanValue(k, y) <==> SameReading(k, x, y)
  {
    ListKeys(k);
    if x.Text? && y.Text? { NormaliseIff(x.s, y.s); }
  }

  /** Cleaned snapshots show no drift exactly when they differ only in volatile keys or in the order, spacing and
      empty items of comma lists. */
  lemma CleanQuietIff(v: map<string, Value>, w: map<string, Value>, volatile: set<string>)
    ensures FlatDiff(Clean(v, volatile), Clean(w, volatile)) == []
            <==> forall k :: k !in volatile ==> SameReading(k, Get(v, k), Get(w, k))
  {
    QuietIff(Clean(v, volatile), Clean(w, volatile));
    forall k ensures Get(Clean(v, volatile), k) == Get(Clean(w, volatile), k)
                     <==> (k !in volatile ==> SameReading(k, Get(v, k), Get(w, k)))
    {
      CleanValueIff(k, Get(v, k), Get(w, k));
      CleanGet(v, volatile, k);
      CleanGet(w, volatile, k);
    }
  }

  lemma CleanGet(m: map<string, Value>, volatile: set<string>, k: string)
    ensures Get(Clean(m, volatile), k) == if k in volatile then Null else CleanValue(k, Get(m, k))
  {
  }
}
