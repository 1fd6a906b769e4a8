/** Who started a task: a bounded in-memory cache over a database table. */
module TaskUsers {
  import opened Wrappers

  const CAP := 50000
  const BATCH := 5000

  datatype Entry = Entry(user: string, timestamp: int)

  datatype State = State(cache: map<string, Entry>, table: map<string, string>)

  // ---------------------------------------------------------------- steps

  /** `oldest` are the entries an overfull cache drops: any BATCH entries, none of them younger than one that stays. */
  datatype Step =
    | Register(upid: string, user: string, now: int, written: bool, oldest: set<string>)
    | Lookup(upid: string, now: int, readable: bool)
    | Restart

  ghost predicate Oldest(m: map<string, Entry>, oldest: set<string>, n: nat) {
    && oldest <= m.Keys && |oldest| == n
    && forall k, j :: k in oldest && j in m && j !in oldest ==> m[k].timestamp <= m[j].timestamp
  }

  predicate Ignored(a: Step)
    requires a.Register?
  {
    a.upid == "" || a.user == ""
  }

  function Inserted(s: State, a: Step): map<string, Entry>
    requires a.Register?
  {
    s.cache[a.upid := Entry(a.user, a.now)]
  }

  predicate Overfull(s: State, a: Step)
    requires a.Register?
  {
    |Inserted(s, a)| > CAP
  }

  /** The entries a step drops from the cache. */
  function Dropped(s: State, a: Step): set<string> {
    match a
    case Register(_, _, _, _, oldest) => if !Ignored(a) && Overfull(s, a) then oldest else {}
    case Lookup(_, _, _) => {}
    case Restart => s.cache.Keys
  }

  ghost predicate Valid(s: State, a: Step) {
    a.Register? && !Ignored(a) && Overfull(s, a) ==> Oldest(Inserted(s, a), a.oldest, BATCH)
  }

  function Do(s: State, a: Step): State {
    match a
    case Register(upid, user, now, written, oldest) =>
      if Ignored(a) then s
      else State(Inserted(s, a) - Dropped(s, a), if written then s.table[upid := user] else s.table)
    case Lookup(upid, now, readable) =>
      if upid != "" && upid !in s.cache && readable && upid in s.table
      then s.(cache := s.cache[upid := Entry(s.table[upid], now)]) else s
    case Restart => s.(cache := map[])
  }

  function Answer(s: State, upid: string, readable: bool): Option<string> {
    if upid == "" then None
    else if upid in s.cache then Some(s.cache[upid].user)
    else if readable && upid in s.table then Some(s.table[upid])
    else None
  }

  function Run(s: State, run: seq<Step>): State {
    if run == [] then s else Do(Run(s, run[..|run| - 1]), run[|run| - 1])
  }

  ghost predicate ValidRun(s: State, run: seq<Step>) {
    forall i :: 0 <= i < |run| ==> Valid(Run(s, run[..i]), run[i])
  }

  // ---------------------------------------------------------------- the cache object

  class Cache {
    var cache: map<string, Entry>
    var table: map<string, string>

    function Now(): State
      reads this
    {
      State(cache, table)
    }

    constructor (stored: map<string, string>)
      ensures Now() == State(map[], stored)
    {
      cache, table := map[], stored;
    }

    method RegisterTaskUser(upid: string, user: string, now: int, written: bool)
      modifies this
      ensures exists oldest :: var a := Register(upid, user, now, written, oldest);
              Valid(old(Now()), a) && Now() == Do(old(Now()), a)
      ensures upid == "" || user == "" ==> cache == old(cache) && table == old(table)
      ensures upid != "" && user != "" ==> table == if written then old(table)[upid := user] else old(table)
    {
      if upid == "" || user == "" {
        assert Now() == Do(old(Now()), Register(upid, user, now, written, {}));
        return;
      }
      cache := cache[upid := Entry(user, now)];
      var gone: set<string> := {};
      if |cache| > CAP {
        gone := OldestEntries(cache, BATCH);
        cache := cache - gone;
      }
      if written { table := table[upid := user]; }
      ghost var a := Register(upid, user, now, written, gone);
      assert Valid(old(Now()), a);
      assert Inserted(old(Now()), a) - {} == Inserted(old(Now()), a);
      assert Now() == Do(old(Now()), a);
    }

    method GetTaskUser(upid: string, now: int, readable: bool) returns (user: Option<string>)
      modifies this`cache
      ensures user == Answer(old(Now()), upid, readable)
      ensures Now() == Do(old(Now()), Lookup(upid, now, readable))
    {
      if upid == "" { return None; }
      if upid in cache { return Some(cache[upid].user); }
      if readable && upid in table {
        cache := cache[upid := Entry(table[upid], now)];
        return Some(table[upid]);
      }
      return None;
    }
  }

  method OldestEntries(m: map<string, Entry>, n: nat) returns (oldest: set<string>)
    requires n <= |m|
    ensures Oldest(m, oldest, n)
  {
    oldest := {};
    for i := 0 to n
      invariant Oldest(m, oldest, i)
    {
      SomeOldest(m, m.Keys - oldest);
      assert |m.Keys - oldest| == |m| - i;
      var k :| k in m.Keys - oldest && forall j :: j in m.Keys - oldest ==> m[k].timestamp <= m[j].timestamp;
      oldest := oldest + {k};
    }
  }

  lemma {:induction false} SomeOldest(m: map<string, Entry>, keys: set<string>)
    requires keys <= m.Keys && keys != {}
    ensures exists k :: k in keys && forall j :: j in keys ==> m[k].timestamp <= m[j].timestamp
  {
    var x :| x in keys;
    var rest := keys - {x};
    if rest == {} {
      assert keys == {x};
    } else {
      SomeOldest(m, rest);
      var k :| k in rest && forall j :: j in rest ==> m[k].timestamp <= m[j].timestamp;
      if m[x].timestamp <= m[k].timestamp {
        assert forall j :: j in keys ==> j == x || j in rest;
      } else {
        assert forall j :: j in keys ==> j == x || j in rest;
        assert m[k].timestamp <= m[x].timestamp;
      }
    }
  }

  // ---------------------------------------------------------------- what a lookup answers

  /** What is known of one task: the last user registered for it, the last one stored, whether the cache has dropped
      it since it was last registered, and whether a lookup has fetched it from the table since it was dropped. */
  datatype Track = Track(last: Option<string>, stored: Option<string>, dropped: bool, cached: bool)

  function Follow(s: State, run: seq<Step>, upid: string): Track {
    if run == [] then
      var stored := if upid in s.table then Some(s.table[upid]) else None;
      Track(stored, stored, true, false)
    else
      var before, a := run[..|run| - 1], run[|run| - 1];
      var t := Seen(Follow(s, before, upid), a, upid);
      if upid in Dropped(Run(s, before), a) then t.(dropped := true, cached := false) else t
  }

  /** A registration that is not ignored counts; so does a lookup that can read the table. */
  function Seen(t: Track, a: Step, upid: string): Track {
    if a.Register? && !Ignored(a) && a.upid == upid
    then Track(Some(a.user), if a.written then Some(a.user) else t.stored, false, false)
    else if a.Lookup? && a.upid == upid && a.readable then t.(cached := t.dropped && t.stored.Some?)
    else t
  }

  ghost predicate Reflects(s: State, t: Track, upid: string) {
    && t.stored == (if upid in s.table then Some(s.table[upid]) else None)
    && (t.dropped ==> (t.cached <==> upid in s.cache))
    && (t.cached ==> t.dropped && upid in s.cache && t.stored == Some(s.cache[upid].user))
    && (!t.dropped ==> upid in s.cache && t.last == Some(s.cache[upid].user))
  }

  lemma StepReflects(s: State, a: Step, t: Track, upid: string)
    requires upid != "" && Reflects(s, t, upid)
    ensures var t' := Seen(t, a, upid);
            Reflects(Do(s, a), if upid in Dropped(s, a) then t'.(dropped := true, cached := false) else t', upid)
  {
  }

  lemma {:induction false} RunReflects(s: State, run: seq<Step>, upid: string)
    requires upid != "" && s.cache == map[]
    ensures Reflects(Run(s, run), Follow(s, run, upid), upid)
  {
    if run != [] {
      RunReflects(s, run[..|run| - 1], upid);
      StepReflects(Run(s, run[..|run| - 1]), run[|run| - 1], Follow(s, run[..|run| - 1], upid), upid);
    }
  }

  /** After any run from an empty cache, a lookup answers the last user registered, unless the cache has dropped the
      entry since: then the last user stored, if the table can be read or was read by a lookup after the drop, and
      nobody otherwise. */
  lemma LookupAnswers(s: State, run: seq<Step>, upid: string, readable: bool)
    requires upid != "" && s.cache == map[]
    ensures var t := Follow(s, run, upid);
            Answer(Run(s, run), upid, readable)
            == if !t.dropped then t.last else if readable || t.cached then t.stored else None
  {
    RunReflects(s, run, upid);
  }

  /** The last registration of the upid reached the table; one never registered counts as stored. */
  predicate LastWritten(run: seq<Step>, upid: string) {
    if run == [] then true
    else
      var a := run[|run| - 1];
      if a.Register? && !Ignored(a) && a.upid == upid then a.written else LastWritten(run[..|run| - 1], upid)
  }

  /** The user last registered for a task, or what the table held before the run. */
  function LastRegistered(s: State, run: seq<Step>, upid: string): Option<string> {
    if run == [] then (if upid in s.table then Some(s.table[upid]) else None)
    else
      var a := run[|run| - 1];
      if a.Register? && !Ignored(a) && a.upid == upid then Some(a.user) else LastRegistered(s, run[..|run| - 1], upid)
  }

  lemma {:induction false} FollowLast(s: State, run: seq<Step>, upid: string)
    ensures Follow(s, run, upid).last == LastRegistered(s, run, upid)
    ensures LastWritten(run, upid) ==> Follow(s, run, upid).stored == LastRegistered(s, run, upid)
  {
    if run != [] { FollowLast(s, run[..|run| - 1], upid); }
  }

  /** With the last write of a task stored, every lookup answers the last user registered, whatever was evicted,
      restarted or looked up in between and whichever earlier writes failed. */
  lemma LastRegisteredWins(s: State, run: seq<Step>, upid: string)
    requires upid != "" && s.cache == map[] && LastWritten(run, upid)
    ensures Answer(Run(s, run), upid, true) == LastRegistered(s, run, upid)
  {
    LookupAnswers(s, run, upid, true);
    FollowLast(s, run, upid);
  }

  lemma OneMore(s: State, run: seq<Step>, a: Step, upid: string)
    ensures Run(s, run + [a]) == Do(Run(s, run), a)
    ensures LastRegistered(s, run + [a], upid)
            == if a.Register? && !Ignored(a) && a.upid == upid then Some(a.user) else LastRegistered(s, run, upid)
    ensures ValidRun(s, run) && Valid(Run(s, run), a) ==> ValidRun(s, run + [a])
  {
    assert (run + [a])[..|run|] == run;
    assert forall i :: 0 <= i < |run| ==> (run + [a])[..i] == run[..i];
  }

  /** Without it, a restart brings the previous user back. */
  lemma FailedWriteIsForgotten(upid: string, first: string, second: string, now: int)
    requires upid != "" && first != "" && second != "" && first != second
    ensures var a, b := Register(upid, first, now, true, {}), Register(upid, second, now, false, {});
            var run := [] + [a] + [b] + [Restart];
            var s := State(map[], map[]);
            && ValidRun(s, run) && LastRegistered(s, run, upid) == Some(second)
            && Answer(Run(s, run), upid, true) == Some(first)
  {
    var a, b := Register(upid, first, now, true, {}), Register(upid, second, now, false, {});
    var s := State(map[], map[]);
    OneMore(s, [], a, upid);
    OneMore(s, [] + [a], b, upid);
    OneMore(s, [] + [a] + [b], Restart, upid);
    SmallState(s, a, s.table);
    SmallState(Do(s, a), b, Do(s, a).table);
  }

  lemma SmallState(s: State, a: Step, table: map<string, string>)
    requires a.Register? && a.upid != "" && a.user != "" && s.cache.Keys <= {a.upid} && s.table == table
    ensures Valid(s, a)
    ensures Do(s, a) == State(map[a.upid := Entry(a.user, a.now)], if a.written then table[a.upid := a.user] else table)
  {
    var m := Inserted(s, a);
    assert m == map[a.upid := Entry(a.user, a.now)];
    assert m.Keys == {a.upid};
    assert |m| == |m.Keys|;
    assert m - {} == m;
  }

  // ---------------------------------------------------------------- how large the cache gets

  function Lookups(run: seq<Step>): nat {
    if run == [] then 0 else Lookups(run[..|run| - 1]) + if run[|run| - 1].Lookup? then 1 else 0
  }

  lemma StepSize(s: State, a: Step, extra: nat)
    requires Valid(s, a) && |s.cache| <= CAP + extra
    ensures |Do(s, a).cache| <= CAP + extra + if a.Lookup? then 1 else 0
  {
    if a.Register? && !Ignored(a) {
      var m := Inserted(s, a);
      assert m.Keys == s.cache.Keys + {a.upid};
      assert (m - Dropped(s, a)).Keys == m.Keys - Dropped(s, a);
    } else if a.Lookup? {
      var m := Do(s, a).cache;
      assert m.Keys <= s.cache.Keys + {a.upid};
      SubsetSize(m.Keys, s.cache.Keys + {a.upid});
    }
  }

  lemma {:induction false} SubsetSize(a: set<string>, b: set<string>)
    requires a <= b
    ensures |a| <= |b|
  {
    if a != {} {
      var x :| x in a;
      SubsetSize(a - {x}, b - {x});
    }
  }

  /** A registration that makes the cache exceed 50000 entries drops 5000, none of them younger than one that stays; no
      other registration drops anything. */
  lemma EvictionSize(s: State, a: Step)
    requires Valid(s, a) && a.Register? && a.upid != "" && a.user != ""
    ensures var grown := s.cache[a.upid := Entry(a.user, a.now)]; var after := Do(s, a).cache;
            && |after| == (if |grown| > 50000 then |grown| - 5000 else |grown|)
            && (forall k :: k in after ==> k in grown && after[k] == grown[k])
            && forall k, j :: k in grown && k !in after && j in after ==> grown[k].timestamp <= grown[j].timestamp
  {
    var grown := s.cache[a.upid := Entry(a.user, a.now)];
    assert (grown - Dropped(s, a)).Keys == grown.Keys - Dropped(s, a);
  }

  /** The cache exceeds its cap by at most one entry a lookup; registrations alone never leave it above the cap. */
  lemma {:induction false} CacheSize(s: State, run: seq<Step>)
    requires |s.cache| <= CAP && ValidRun(s, run)
    ensures |Run(s, run).cache| <= CAP + Lookups(run)
  {
    if run != [] {
      var before := run[..|run| - 1];
      assert forall i :: 0 <= i < |before| ==> before[..i] == run[..i];
      CacheSize(s, before);
      StepSize(Run(s, before), run[|run| - 1], Lookups(before));
    }
  }

  /** A call that starts within the cap ends above it exactly when it is a lookup that finds its upid in the table and
      not in a full cache. */
  lemma CrossesCapIff(s: State, a: Step)
    requires Valid(s, a) && |s.cache| <= CAP
    ensures |Do(s, a).cache| > CAP
            <==> a.Lookup? && a.upid != "" && a.upid !in s.cache && a.readable && a.upid in s.table && |s.cache| == CAP
  {
    StepSize(s, a, 0);
    if a.Lookup? && a.upid != "" && a.upid !in s.cache && a.readable && a.upid in s.table {
      assert Do(s, a).cache.Keys == s.cache.Keys + {a.upid};
    }
  }

  function Name(n: nat): string { if n == 0 then "x" else Name(n - 1) + "x" }

  lemma {:induction false} NameShape(n: nat)
    ensures |Name(n)| == n + 1 && 'y' !in Name(n)
  {
    if n > 0 { NameShape(n - 1); }
  }

  function Arrival(n: nat): Step { Register(Name(n), "user", 0, false, {}) }

  /** `n` upids are cached, none longer than `n` and none with a y. */
  ghost predicate Filled(t: State, n: nat) { |t.cache| == n && forall k :: k in t.cache ==> |k| <= n && 'y' !in k }

  lemma FillOne(t: State, n: nat)
    requires Filled(t, n) && n < CAP
    ensures Valid(t, Arrival(n)) && Filled(Do(t, Arrival(n)), n + 1) && Do(t, Arrival(n)).table == t.table
  {
    NameShape(n);
    var a := Arrival(n);
    assert a.upid !in t.cache;
    assert Inserted(t, a).Keys == t.cache.Keys + {a.upid};
    assert Inserted(t, a) - {} == Inserted(t, a);
  }

  /** A run that fills the cache with `n` entries and leaves the table alone. */
  ghost predicate Fills(s: State, run: seq<Step>, n: nat) {
    ValidRun(s, run) && Filled(Run(s, run), n) && Run(s, run).table == s.table
  }

  lemma FillsOneMore(s: State, run: seq<Step>, n: nat)
    requires Fills(s, run, n) && n < CAP
    ensures Fills(s, run + [Arrival(n)], n + 1)
  {
    FillOne(Run(s, run), n);
    OneMore(s, run, Arrival(n), "");
  }

  lemma NothingFilled(s: State)
    requires s.cache == map[]
    ensures Fills(s, [], 0)
  {
  }

  /** Registrations of different upids fill the cache. */
  lemma {:induction false} FillRun(s: State, n: nat) returns (run: seq<Step>)
    requires s.cache == map[] && n <= CAP
    ensures Fills(s, run, n)
  {
    if n == 0 {
      NothingFilled(s);
      run := [];
    } else {
      var before := FillRun(s, n - 1);
      FillsOneMore(s, before, n - 1);
      run := before + [Arrival(n - 1)];
    }
  }

  /** A full cache and one lookup of a stored upid. */
  lemma LookupExceedsCap() returns (s: State, run: seq<Step>)
    ensures s.cache == map[] && ValidRun(s, run) && |Run(s, run).cache| == CAP + 1
  {
    s := State(map[], map["y" := "user"]);
    var before := FillRun(s, CAP);
    var a := Lookup("y", 0, true);
    var t := Run(s, before);
    assert "y" !in t.cache;
    assert Do(t, a).cache.Keys == t.cache.Keys + {"y"};
    OneMore(s, before, a, "");
    run := before + [a];
  }
}
