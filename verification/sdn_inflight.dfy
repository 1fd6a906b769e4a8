/** Creates in progress against the shared-infrastructure check of a purge, interleaved step by step: a create
    announces itself, builds, inserts its row and only then withdraws the announcement. */
module SdnInFlight {
  import opened Wrappers
  import opened SdnTypes
  import opened SdnRemote
  import opened SdnRollback
  import opened SdnWorld
  import SdnOutcomes

  datatype Stage = Building(d: Defn, since: int) | Recorded(d: Defn, vid: Vid)

  datatype Scene = Scene(w: World, creates: map<Token, Stage>)

  datatype Move =
    | Announce(tok: Token, d: Defn)
    | Insert(tok: Token, vid: Vid, st: map<Id, Status>)
    | Withdraw(tok: Token)
    | Fail(tok: Token)
    | Forget(vid: Vid)
    | Rewrite(vid: Vid, p: Row -> Row)
    | Elapse(dt: nat)

  /** Rewrites of a row keep its zone and controller, which no handler edits. */
  ghost predicate KeepsInfra(p: Row -> Row) {
    forall row :: p(row).desired.zone == row.desired.zone && p(row).desired.ctrl == row.desired.ctrl
  }

  ghost function Play(s: Scene, m: Move): Scene {
    match m
    case Announce(tok, d) =>
      if tok in s.creates || tok in s.w.inflight then s
      else
        var entry := InFlight(Elems(d.members), d.zone, d.ctrl, s.w.now + PROVISIONING_TTL);
        Scene(s.w.(inflight := s.w.inflight[tok := entry]), s.creates[tok := Building(d, s.w.now)])
    case Insert(tok, vid, st) =>
      if tok !in s.creates || !s.creates[tok].Building? || vid in s.w.rows then s
      else if NameTaken(s.w.rows, s.creates[tok].d.name) then s
      else
        var d := s.creates[tok].d;
        Scene(s.w.(rows := s.w.rows[vid := NewRow(d, st)]), s.creates[tok := Recorded(d, vid)])
    case Withdraw(tok) =>
      if tok in s.creates && s.creates[tok].Recorded? then s.(w := s.w.(inflight := s.w.inflight - {tok})) else s
    case Fail(tok) => if tok in s.creates && s.creates[tok].Building? then s.(creates := s.creates - {tok}) else s
    case Forget(vid) =>
      Scene(s.w.(rows := s.w.rows - {vid}),
            map t | t in s.creates && !(s.creates[t].Recorded? && s.creates[t].vid == vid) :: s.creates[t])
    case Rewrite(vid, p) =>
      if vid in s.w.rows && KeepsInfra(p) then s.(w := s.w.(rows := s.w.rows[vid := p(s.w.rows[vid])])) else s
    case Elapse(dt) => s.(w := s.w.(now := s.w.now + dt))
  }

  ghost function PlayAll(s: Scene, moves: seq<Move>): Scene {
    if moves == [] then s else Play(PlayAll(s, moves[..|moves| - 1]), moves[|moves| - 1])
  }

  /** A create that passed its pre-flight announces itself as in these interleavings, and then inserts its row and
      withdraws, or leaves the announcement to expire. */
  lemma CreateIsPlayed(w: World, vid: Vid, tok: Token, d: Defn, atomic: bool, lost: set<Id>)
    requires tok !in w.inflight && PreflightSome(w.sites, d.members, d, |d.members|).ok && vid !in w.rows
    ensures var after := CreateSpan(w, vid, tok, d, atomic, lost);
            var announced := Play(Scene(w, map[]), Announce(tok, d));
            if vid in after.rows
            then
              var played := Play(Play(announced, Insert(tok, vid, after.rows[vid].status)), Withdraw(tok));
              after.rows == played.w.rows && after.inflight == played.w.inflight
            else after.rows == w.rows && after.inflight == announced.w.inflight
  {
    SdnOutcomes.CreateIsSettle(w, vid, tok, d, atomic, lost);
    var sites := PreflightSome(w.sites, d.members, d, |d.members|).sites;
    var fanned := Fanned(w.(sites := sites), tok, d);
    var reports := Reports(sites, ForAll(d.members, DoApply(d)), lost);
    SdnOutcomes.SettleShape(fanned, vid, tok, d, atomic, reports);
    SettleIsPlayed(w, fanned, SettleSpan(fanned, vid, tok, d, atomic, reports), vid, tok, d, atomic, Statuses(reports));
  }

  lemma SettleIsPlayed(w: World, fanned: World, after: World, vid: Vid, tok: Token, d: Defn, atomic: bool,
      st: map<Id, Status>)
    requires tok !in w.inflight && vid !in w.rows && fanned.rows == w.rows
    requires fanned.inflight == Play(Scene(w, map[]), Announce(tok, d)).w.inflight
    requires SdnOutcomes.Settled(fanned, after, vid, tok, d, atomic, st)
    ensures var announced := Play(Scene(w, map[]), Announce(tok, d));
            if vid in after.rows
            then
              var played := Play(Play(announced, Insert(tok, vid, after.rows[vid].status)), Withdraw(tok));
              after.rows == played.w.rows && after.inflight == played.w.inflight
            else after.rows == w.rows && after.inflight == announced.w.inflight
  {
  }

  /** A building create is announced, a recorded one has its row. */
  ghost predicate Advertised(s: Scene) {
    forall t :: t in s.creates ==>
      var d := s.creates[t].d;
      match s.creates[t]
      case Building(_, since) =>
        && t in s.w.inflight
        && s.w.inflight[t] == InFlight(Elems(d.members), d.zone, d.ctrl, since + PROVISIONING_TTL)
      case Recorded(_, vid) =>
        vid in s.w.rows && s.w.rows[vid].desired.zone == d.zone && s.w.rows[vid].desired.ctrl == d.ctrl
  }

  lemma {:induction false} AlwaysAdvertised(s: Scene, moves: seq<Move>)
    requires s.creates == map[]
    ensures Advertised(PlayAll(s, moves))
  {
    if moves != [] {
      AlwaysAdvertised(s, moves[..|moves| - 1]);
      PlayKeepsAdvertised(PlayAll(s, moves[..|moves| - 1]), moves[|moves| - 1]);
    }
  }

  lemma PlayKeepsAdvertised(s: Scene, m: Move)
    requires Advertised(s)
    ensures Advertised(Play(s, m))
  {
  }

  /** The create works on cluster `c`: it is building there, within its time, or its row lists `c` as a member. */
  ghost predicate WorksOn(s: Scene, tok: Token, c: Id) {
    tok in s.creates &&
    match s.creates[tok]
    case Building(d, since) => c in d.members && s.w.now <= since + PROVISIONING_TTL
    case Recorded(_, vid) => vid in s.w.rows && c in s.w.rows[vid].members
  }

  /** In every interleaving there is no moment, from announcement to deletion of its row, at which a create that
      works on a cluster (and is still within its time if it has no row) fails to count as a user of its zone and
      its controller there, for the purge of any other span `other` that names the same ones. */
  lemma InFlightProtection(s: Scene, moves: seq<Move>, tok: Token, c: Id, vid: Vid, other: Defn, unreadable: set<Id>)
    requires s.creates == map[] && WorksOn(PlayAll(s, moves), tok, c)
    requires var st := PlayAll(s, moves).creates[tok]; st.Recorded? ==> st.vid != vid
    ensures var t := PlayAll(s, moves); var d := t.creates[tok].d;
            var (zone, ctrl) := SharedInfra(t.w, vid, c, other, unreadable);
            && (other.zone != "" && other.zone == d.zone ==> zone)
            && (other.ctrl != "" && other.ctrl == d.ctrl ==> ctrl)
  {
    AlwaysAdvertised(s, moves);
    var t := PlayAll(s, moves);
    var stage := t.creates[tok];
    if stage.Building? {
      assert c in Elems(stage.d.members);
      assert other.zone == stage.d.zone ==> ZoneInFlight(t.w.inflight, t.w.now, c, other.zone);
      assert other.ctrl == stage.d.ctrl ==> CtrlInFlight(t.w.inflight, t.w.now, c, other.ctrl);
    } else {
      assert other.zone == stage.d.zone ==> ZoneRecorded(t.w.rows, vid, c, other.zone);
      assert other.ctrl == stage.d.ctrl ==> CtrlRecorded(t.w.rows, vid, c, other.ctrl);
    }
  }

  /** No handler edits the zone or the controller of a row: the locked sections, and the status writes of a re-apply
      and of the scanner. */
  lemma HandlersKeepInfra(latest: map<Id, Status>, updates: Option<(Option<string>, seq<Subnet>)>,
                          c: Id, st: Status, rollup: Rollup)
    ensures KeepsInfra((row: Row) => MergeWrite(row, latest, updates))
    ensures KeepsInfra((row: Row) => AddCommit(row, c, st))
    ensures KeepsInfra((row: Row) => RemoveCommit(row, c))
    ensures KeepsInfra((row: Row) => row.(status := latest, rollup := rollup))
  {
  }

  lemma TeardownSpares(r: Remote, d: Defn, created: seq<Kind>)
    ensures var after := Teardown(r, d, created).r.cl;
            && (forall z :: z in r.cl.zones && (KZone !in created || z != d.zone) ==>
                  z in after.zones && after.zones[z] == r.cl.zones[z])
            && (forall k :: k in r.cl.ctrls && (KController !in created || k != d.ctrl) ==>
                  k in after.ctrls && after.ctrls[k] == r.cl.ctrls[k])
  {
    TeardownShrinks(r, d, created);
  }

  /** In every interleaving, a full delete with purge of another span leaves zone and controller of a create that
      works on a cluster, announced and within its time or recorded, as they were there. */
  lemma PurgeSparesInFlight(s: Scene, moves: seq<Move>, tok: Token, c: Id, vid: Vid, unreadable: set<Id>)
    requires s.creates == map[] && WorksOn(PlayAll(s, moves), tok, c) && c in PlayAll(s, moves).w.sites
    requires var st := PlayAll(s, moves).creates[tok]; ValidDefn(st.d) && (st.Recorded? ==> st.vid != vid)
    ensures var t := PlayAll(s, moves); var d := t.creates[tok].d;
            var before, sites := t.w.sites[c].cl, DeleteSpan(t.w, vid, true, unreadable).sites;
            && c in sites
            && (d.zone in before.zones ==>
                  d.zone in sites[c].cl.zones && sites[c].cl.zones[d.zone] == before.zones[d.zone])
            && (d.ctrl in before.ctrls ==>
                  d.ctrl in sites[c].cl.ctrls && sites[c].cl.ctrls[d.ctrl] == before.ctrls[d.ctrl])
  {
    var w := PlayAll(s, moves).w;
    if vid in w.rows && c in w.rows[vid].members {
      var other := w.rows[vid].desired;
      InFlightProtection(s, moves, tok, c, vid, other, unreadable);
      var (zone, ctrl) := SharedInfra(w, vid, c, other, unreadable);
      TeardownSpares(w.sites[c], other, PurgeList(zone, ctrl));
      assert PurgeOps(w, vid, w.rows[vid], unreadable)[c] == DoTeardown(other, PurgeList(zone, ctrl));
    }
  }
}
