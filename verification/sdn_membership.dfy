/** One record from its creation on, under concurrent requests. A request reads the record, works on the clusters
    without a lock, and then commits under the record's lock against the record as it is by then. Only the commits are
    atomic. */
module SdnMembership {
  import opened Wrappers
  import opened SdnTypes
  import opened SdnRemote
  import opened SdnEdit
  import opened SdnWorld
  import opened SdnInvariant

  type Tid = nat

  datatype Request = AskAdd(c: Id) | AskRemove(c: Id) | AskEdit(ch: Changes) | AskStatus

  /** What a request carries from its unlocked part; `latest` are the reports of its fan-out. */
  datatype Pending =
    | PendingAdd(c: Id, st: Status)
    | PendingRemove(c: Id)
    | PendingEdit(alias: Option<string>, subs: seq<Subnet>, latest: map<Id, Status>)
    | PendingStatus(latest: map<Id, Status>)

  datatype Member = Joined(c: Id) | Left(c: Id)

  /** `born` is the definition the record was created with; `history` lists, in lock order, the membership commits that
      took effect since. */
  datatype Store = Store(row: Option<Row>, pending: map<Tid, Pending>, history: seq<Member>, born: Option<Defn>)

  const EMPTY := Store(None, map[], [], None)

  datatype Event =
    | Create(d: Defn, statuses: map<Id, Status>)
    | Start(tid: Tid, req: Request, st: Status, latest: map<Id, Status>)
    | Commit(tid: Tid)
    | Erase

  /** What a create hands over: a validated definition and a status for each of its members. */
  ghost predicate Admitted(events: seq<Event>) {
    forall e :: e in events && e.Create? ==> ValidDefn(e.d) && e.statuses.Keys == Elems(e.d.members)
  }

  /** The unlocked part: guards and the edit's subnet list are computed from the record as read now. */
  function Prepare(row: Row, req: Request, st: Status, latest: map<Id, Status>): Option<Pending> {
    match req
    case AskAdd(c) => if c == "" || c in row.members then None else Some(PendingAdd(c, st))
    case AskRemove(c) => if c !in row.members || |row.members| <= 1 then None else Some(PendingRemove(c))
    case AskEdit(ch) => Some(PendingEdit(ch.alias, EditedSubnets(row.desired.subnets, ch), latest))
    case AskStatus => Some(PendingStatus(latest))
  }

  /** The locked section. */
  function Committed(row: Row, p: Pending): Row {
    match p
    case PendingAdd(c, st) => AddCommit(row, c, st)
    case PendingRemove(c) => RemoveCommit(row, c)
    case PendingEdit(alias, subs, latest) => MergeWrite(row, latest, Some((alias, subs)))
    case PendingStatus(latest) => MergeWrite(row, latest, None)
  }

  /** The row `vid` became what the request prepares from it and commits; a request that prepares nothing left it. */
  ghost predicate Commits(w: World, after: World, vid: Vid, req: Request, latest: map<Id, Status>)
    requires vid in w.rows
  {
    match Prepare(w.rows[vid], req, Applied, latest)
    case Some(p) => after.rows == w.rows[vid := Committed(w.rows[vid], p)]
    case None => after.rows == w.rows
  }

  /** Run without interruption, the handlers prepare and commit exactly like this. */
  lemma EditSpanCommits(w: World, vid: Vid, ch: Changes, lost: set<Id>)
    requires vid in w.rows && (ch.alias.Some? || ch.adds != [] || ch.dels != [])
    ensures var row := w.rows[vid];
            var edited := Statuses(Reports(w.sites, ForAll(row.members, DoEdit(row.desired.name, ch)), lost));
            Commits(w, EditSpan(w, vid, ch, lost), vid, AskEdit(ch), edited)
  {
  }

  lemma ReconcileSpanCommits(w: World, vid: Vid, lost: set<Id>)
    requires vid in w.rows
    ensures var row := w.rows[vid];
            var mended := Statuses(Reports(w.sites, ForAll(row.members, DoReconcile(row.desired)), lost));
            Commits(w, ReconcileSpan(w, vid, lost), vid, AskStatus, mended)
  {
  }

  lemma ScanSpanCommits(w: World, vid: Vid)
    requires vid in w.rows
    ensures var row := w.rows[vid];
            var seen := Statuses(Reports(w.sites, ForAll(row.members, DoLook(row.desired)), {}));
            Commits(w, ScanSpan(w, vid), vid, AskStatus, seen)
  {
  }

  lemma MembershipCommits(w: World, vid: Vid, c: Id, purge: bool)
    requires vid in w.rows
    ensures Commits(w, RemoveMember(w, vid, c, purge), vid, AskRemove(c), map[])
    ensures var after := AddMember(w, vid, c); after.rows == w.rows || Commits(w, after, vid, AskAdd(c), map[])
  {
  }

  function Effect(row: Row, p: Pending): seq<Member> {
    match p
    case PendingAdd(c, _) => if c in row.members then [] else [Joined(c)]
    case PendingRemove(c) => if Filter(row.members, c) == [] then [] else [Left(c)]
    case _ => []
  }

  /** A record is created once: its id is drawn anew for each create. */
  function Advance(s: Store, e: Event): Store {
    match e
    case Create(d, st) => if s.born.Some? then s else s.(row := Some(NewRow(d, st)), born := Some(d))
    case Start(tid, req, st, latest) =>
      if s.row.None? || tid in s.pending then s
      else
        var p := Prepare(s.row.value, req, st, latest);
        if p.None? then s else s.(pending := s.pending[tid := p.value])
    case Commit(tid) =>
      if tid !in s.pending then s
      else if s.row.None? then s.(pending := s.pending - {tid})
      else
        var row, p := s.row.value, s.pending[tid];
        s.(row := Some(Committed(row, p)), pending := s.pending - {tid}, history := s.history + Effect(row, p))
    case Erase => s.(row := None)
  }

  function Interleave(s: Store, events: seq<Event>): Store {
    if events == [] then s else Advance(Interleave(s, events[..|events| - 1]), events[|events| - 1])
  }

  // ---------------------------------------------------------------- coherence

  /** The members after the adds and removes of a history. */
  function Fold(init: seq<Id>, history: seq<Member>): seq<Id> {
    if history == [] then init
    else
      var ms := Fold(init, history[..|history| - 1]);
      match history[|history| - 1]
      case Joined(c) => ms + [c]
      case Left(c) => Filter(ms, c)
  }

  lemma CommitCoherent(row: Row, p: Pending)
    requires Coherent(row)
    ensures Coherent(Committed(row, p))
    ensures Fold(row.members, Effect(row, p)) == Committed(row, p).members
  {
    assert Fold(row.members, []) == row.members;
    match p
    case PendingAdd(c, st) =>
      if c !in row.members {
        assert forall i :: 0 <= i < |row.members| ==> row.members[i] in row.members;
        assert Elems(row.members + [c]) == Elems(row.members) + {c};
        assert [Joined(c)][..0] == [];
      }
    case PendingRemove(c) => FilterMeaning(row.members, c); assert [Left(c)][..0] == [];
    case PendingEdit(_, _, _) =>
    case PendingStatus(_) =>
  }

  lemma {:induction false} FoldAppend(init: seq<Id>, h: seq<Member>, e: seq<Member>)
    requires |e| <= 1
    ensures Fold(init, h + e) == Fold(Fold(init, h), e)
  {
    if e == [] {
      assert h + e == h;
    } else {
      assert (h + e)[..|h + e| - 1] == h && e[..|e| - 1] == [];
    }
  }

  /** The row a create inserts, in any world, is coherent. */
  lemma CreatedRowIsCoherent(w: World, vid: Vid, tok: Token, d: Defn, atomic: bool, lost: set<Id>)
    requires ValidDefn(d) && vid !in w.rows
    ensures var after := CreateSpan(w, vid, tok, d, atomic, lost);
            vid in after.rows ==> Coherent(after.rows[vid]) && after.rows[vid] == NewRow(d, after.rows[vid].status)
  {
  }

  /** Everything but alias, subnets and members. */
  function Structure(d: Defn): Defn { d.(alias := "", subnets := [], members := []) }

  lemma CommitKeepsStructure(row: Row, p: Pending)
    ensures Structure(Committed(row, p).desired) == Structure(row.desired)
  {
  }

  /** For every interleaving of a create and the requests after it: while the record exists its member lists agree, are
      non-empty and free of duplicates, it holds no status of a former member, its members are those it was created
      with and every committed add and remove applied in lock order, and its structure is that of its creation. */
  lemma {:induction false} MembershipCoherence(events: seq<Event>)
    requires Admitted(events)
    ensures var t := Interleave(EMPTY, events);
            t.row.Some? ==> t.born.Some? && Coherent(t.row.value)
                            && t.row.value.members == Fold(t.born.value.members, t.history)
                            && Structure(t.row.value.desired) == Structure(t.born.value)
    ensures var t := Interleave(EMPTY, events); t.born.None? ==> t.pending == map[] && t.history == [] && t.row.None?
  {
    if events != [] {
      var e, init := events[|events| - 1], events[..|events| - 1];
      assert forall x :: x in init ==> x in events;
      var before := Interleave(EMPTY, init);
      MembershipCoherence(init);
      if e.Commit? && e.tid in before.pending && before.row.Some? {
        var row, p := before.row.value, before.pending[e.tid];
        CommitCoherent(row, p);
        CommitKeepsStructure(row, p);
        FoldAppend(before.born.value.members, before.history, Effect(row, p));
      }
    }
  }

  /** The last committed add or remove of a cluster. */
  function LastWord(history: seq<Member>, c: Id): Option<Member> {
    if history == [] then None
    else if history[|history| - 1].c == c then Some(history[|history| - 1])
    else LastWord(history[..|history| - 1], c)
  }

  /** No committed add or remove is lost: a cluster is a member exactly when its last committed change was a join,
      or it was a member from the start and never changed. */
  lemma {:induction false} LastWordDecides(init: seq<Id>, history: seq<Member>, c: Id)
    ensures c in Fold(init, history) <==> match LastWord(history, c) case Some(m) => m.Joined? case None => c in init
  {
    if history != [] {
      var h := history[..|history| - 1];
      LastWordDecides(init, h, c);
      var m := history[|history| - 1];
      if m.Left? {
        FilterMeaning(Fold(init, h), m.c);
        assert c in Filter(Fold(init, h), m.c) <==> c in Elems(Filter(Fold(init, h), m.c));
        assert c in Fold(init, h) <==> c in Elems(Fold(init, h));
      }
    }
  }

  // ---------------------------------------------------------------- what the lock does not cover

  /** The subnets an edit read before it took the lock, and what it was asked to change. */
  datatype Reading = Reading(subs: seq<Subnet>, ch: Changes)

  /** What the pending edit `tid` read, if the request that holds `tid` is an edit. */
  function ReadBy(events: seq<Event>, tid: Tid): Option<Reading> {
    if events == [] then None
    else
      var init, e := events[..|events| - 1], events[|events| - 1];
      var s := Interleave(EMPTY, init);
      if e.Start? && e.tid == tid && s.row.Some? && tid !in s.pending
          && Prepare(s.row.value, e.req, e.st, e.latest).Some?
      then (if e.req.AskEdit? then Some(Reading(s.row.value.desired.subnets, e.req.ch)) else None)
      else ReadBy(init, tid)
  }

  /** What the edit that committed last had read. */
  function LastEdit(events: seq<Event>): Option<Reading> {
    if events == [] then None
    else
      var init, e := events[..|events| - 1], events[|events| - 1];
      var s := Interleave(EMPTY, init);
      if e.Commit? && e.tid in s.pending && s.row.Some? && s.pending[e.tid].PendingEdit? then ReadBy(init, e.tid)
      else LastEdit(init)
  }

  ghost predicate Remembers(s: Store, events: seq<Event>) {
    forall tid :: tid in s.pending && s.pending[tid].PendingEdit? ==>
      var r := ReadBy(events, tid); r.Some? && s.pending[tid].subs == EditedSubnets(r.value.subs, r.value.ch)
  }

  lemma {:induction false} PendingEditsRemember(events: seq<Event>)
    ensures Remembers(Interleave(EMPTY, events), events)
  {
    if events != [] { PendingEditsRemember(events[..|events| - 1]); }
  }

  /** The subnets of the record after an interleaving. */
  function SubnetsFrom(born: Defn, last: Option<Reading>): seq<Subnet> {
    if last.None? then born.subnets else EditedSubnets(last.value.subs, last.value.ch)
  }

  /** For every interleaving: the record's subnets are those the last committed edit computed from what it had read
      before the lock, whatever other edits committed in between. */
  lemma {:induction false} LastEditDecides(events: seq<Event>)
    requires Admitted(events)
    ensures var t := Interleave(EMPTY, events);
            t.row.Some? ==> t.born.Some? && t.row.value.desired.subnets == SubnetsFrom(t.born.value, LastEdit(events))
    ensures Interleave(EMPTY, events).born.None? ==> LastEdit(events).None?
  {
    MembershipCoherence(events);
    if events != [] {
      var init := events[..|events| - 1];
      assert forall x :: x in init ==> x in events;
      LastEditDecides(init);
      MembershipCoherence(init);
      PendingEditsRemember(init);
      var before, e := Interleave(EMPTY, init), events[|events| - 1];
      if e.Commit? && e.tid in before.pending && before.row.Some? {
        CommitSubnets(before.row.value, before.pending[e.tid]);
      } else {
        OthersKeepSubnets(before, e);
      }
    }
  }

  lemma CommitSubnets(row: Row, p: Pending)
    ensures Committed(row, p).desired.subnets == if p.PendingEdit? then p.subs else row.desired.subnets
  {
  }

  lemma OthersKeepSubnets(s: Store, e: Event)
    requires !(e.Commit? && e.tid in s.pending && s.row.Some?)
    ensures Advance(s, e).row.Some? && s.born.Some? ==> s.row.Some? && Advance(s, e).row == s.row
    ensures s.born.Some? ==> Advance(s, e).born == s.born
    ensures Advance(s, e).row.Some? && s.born.None? && s.row.None? ==>
              Advance(s, e).born.Some? && Advance(s, e).row.value.desired.subnets == Advance(s, e).born.value.subnets
  {
  }

  /** Running the second edit on what both had read gives the same networks as running it after the first. */
  ghost predicate NothingLost(subs: seq<Subnet>, first: Changes, second: Changes) {
    && NetsOf(first.adds) <= NetsOf(subs) + NetsOf(second.adds) + CanonSet(second.dels)
    && NetsOf(subs) * CanonSet(first.dels) <= NetsOf(first.adds) + NetsOf(second.adds) + CanonSet(second.dels)
  }

  lemma NothingLostIff(subs: seq<Subnet>, first: Changes, second: Changes)
    ensures NetsOf(EditedSubnets(subs, second)) == NetsOf(EditedSubnets(EditedSubnets(subs, first), second))
            <==> NothingLost(subs, first, second)
  {
    RecordAfterEdit(subs, first);
    RecordAfterEdit(subs, second);
    RecordAfterEdit(EditedSubnets(subs, first), second);
    SetsAgreeIff(NetsOf(subs), NetsOf(first.adds), CanonSet(first.dels), NetsOf(second.adds), CanonSet(second.dels));
  }

  lemma SetsAgreeIff(s: set<Cidr>, a1: set<Cidr>, d1: set<Cidr>, a2: set<Cidr>, d2: set<Cidr>)
    ensures (s - d2) + a2 == (((s - d1) + a1) - d2) + a2 <==> a1 <= s + a2 + d2 && s * d1 <= a1 + a2 + d2
  {
    var racing, serial := (s - d2) + a2, (((s - d1) + a1) - d2) + a2;
    if racing == serial {
      forall x | x in a1 ensures x in s + a2 + d2 { assert x in racing <==> x in serial; }
      forall x | x in s * d1 ensures x in a1 + a2 + d2 { assert x in racing <==> x in serial; }
    }
    if a1 <= s + a2 + d2 && s * d1 <= a1 + a2 + d2 {
      forall x ensures x in racing <==> x in serial {
        assert x in a1 ==> x in s + a2 + d2;
        assert x in s * d1 ==> x in a1 + a2 + d2;
      }
    }
  }

  /** Of two edits that both start before either commits, the second to commit decides alone. The record ends with the
      networks of the two edits in sequence exactly when the second edit or the old record covers every network the
      first added, and every recorded network it deleted is added or deleted again. */
  lemma ConcurrentEditsLoseSubnets(s: Store, i: Tid, j: Tid, first: Changes, second: Changes,
                                   st: Status, latest: map<Id, Status>)
    requires s.row.Some? && i !in s.pending && j !in s.pending && i != j
    ensures var a, b := Start(i, AskEdit(first), st, latest), Start(j, AskEdit(second), st, latest);
            var subs := s.row.value.desired.subnets;
            var racing := Interleave(s, [a, b, Commit(i), Commit(j)]);
            var serial := Interleave(s, [a, Commit(i), b, Commit(j)]);
            && racing.row.Some? && serial.row.Some?
            && racing.row.value.desired.subnets == EditedSubnets(subs, second)
            && serial.row.value.desired.subnets == EditedSubnets(EditedSubnets(subs, first), second)
            && (NetsOf(racing.row.value.desired.subnets) == NetsOf(serial.row.value.desired.subnets)
                <==> NothingLost(subs, first, second))
  {
    RacingEdits(s, i, j, first, second, st, latest);
    SerialEdits(s, i, j, first, second, st, latest);
    NothingLostIff(s.row.value.desired.subnets, first, second);
  }

  lemma RacingEdits(s: Store, i: Tid, j: Tid, first: Changes, second: Changes, st: Status, latest: map<Id, Status>)
    requires s.row.Some? && i !in s.pending && j !in s.pending && i != j
    ensures var a, b := Start(i, AskEdit(first), st, latest), Start(j, AskEdit(second), st, latest);
            var t := Interleave(s, [a, b, Commit(i), Commit(j)]);
            t.row.Some? && t.row.value.desired.subnets == EditedSubnets(s.row.value.desired.subnets, second)
  {
    var a, b := Start(i, AskEdit(first), st, latest), Start(j, AskEdit(second), st, latest);
    FourEvents(s, a, b, Commit(i), Commit(j));
    EditStarts(s, i, first, st, latest);
    var s1 := Advance(s, a);
    EditStarts(s1, j, second, st, latest);
    var s2 := Advance(s1, b);
    EditCommits(s2, i);
    EditCommits(Advance(s2, Commit(i)), j);
  }

  lemma EditStarts(s: Store, tid: Tid, ch: Changes, st: Status, latest: map<Id, Status>)
    requires s.row.Some? && tid !in s.pending
    ensures var p := PendingEdit(ch.alias, EditedSubnets(s.row.value.desired.subnets, ch), latest);
            Advance(s, Start(tid, AskEdit(ch), st, latest)) == s.(pending := s.pending[tid := p])
  {
  }

  lemma EditCommits(s: Store, tid: Tid)
    requires s.row.Some? && tid in s.pending && s.pending[tid].PendingEdit?
    ensures var t := Advance(s, Commit(tid));
            t.row.Some? && t.row.value.desired.subnets == s.pending[tid].subs && t.pending == s.pending - {tid}
  {
  }

  lemma SerialEdits(s: Store, i: Tid, j: Tid, first: Changes, second: Changes, st: Status, latest: map<Id, Status>)
    requires s.row.Some? && i !in s.pending && j !in s.pending && i != j
    ensures var a, b := Start(i, AskEdit(first), st, latest), Start(j, AskEdit(second), st, latest);
            var t := Interleave(s, [a, Commit(i), b, Commit(j)]);
            t.row.Some?
            && t.row.value.desired.subnets == EditedSubnets(EditedSubnets(s.row.value.desired.subnets, first), second)
  {
    var a, b := Start(i, AskEdit(first), st, latest), Start(j, AskEdit(second), st, latest);
    FourEvents(s, a, Commit(i), b, Commit(j));
    EditStarts(s, i, first, st, latest);
    var s1 := Advance(s, a);
    EditCommits(s1, i);
    var s2 := Advance(s1, Commit(i));
    EditStarts(s2, j, second, st, latest);
    EditCommits(Advance(s2, b), j);
  }

  lemma FourEvents(s: Store, a: Event, b: Event, c: Event, d: Event)
    ensures Interleave(s, [a, b, c, d]) == Advance(Advance(Advance(Advance(s, a), b), c), d)
  {
    var e := [a, b, c, d];
    assert e[..3] == [a, b, c] && [a, b, c][..2] == [a, b] && [a, b][..1] == [a] && [a][..0] == [];
    assert Interleave(s, [a]) == Advance(s, a);
    assert Interleave(s, [a, b]) == Advance(Advance(s, a), b);
    assert Interleave(s, [a, b, c]) == Advance(Advance(Advance(s, a), b), c);
  }
}
