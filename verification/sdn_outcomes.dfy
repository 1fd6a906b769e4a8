/** What each handler achieves, in terms of rows and clusters: what it records, what it builds or removes where, and
    that it leaves everything else alone. */
module SdnOutcomes {
  import opened Wrappers
  import opened SdnTypes
  import opened SdnRemote
  import opened SdnBuild
  import opened SdnRollback
  import opened SdnEdit
  import opened SdnWorld
  import opened SdnInvariant
  import opened SdnCreate

  // ---------------------------------------------------------------- rollup

  predicate Good(s: Status) { s == Applied || s == InSync }

  ghost predicate SomeGood(st: map<Id, Status>) { exists c :: c in st && Good(st[c]) }

  ghost predicate SomeBad(st: map<Id, Status>) { exists c :: c in st && !Good(st[c]) }

  ghost predicate SomeDrift(st: map<Id, Status>) { exists c :: c in st && st[c] == Drift }

  /** The rollup: nothing, all good, some good or a drift among the rest, or none good. */
  lemma RollupMeans(st: map<Id, Status>)
    ensures RollupOf(st) == Pending <==> st == map[]
    ensures RollupOf(st) == AllApplied <==> st != map[] && !SomeBad(st)
    ensures RollupOf(st) == Partial <==> SomeBad(st) && (SomeGood(st) || SomeDrift(st))
    ensures RollupOf(st) == AllFailed <==> st != map[] && !SomeGood(st) && !SomeDrift(st)
  {
    if st != map[] { var c :| c in st; assert Good(st[c]) || !Good(st[c]); }
    assert forall c :: c in st ==> (Healthy(st[c]) <==> Good(st[c]));
  }

  // ---------------------------------------------------------------- create

  /** Every member's report arrived and says applied. */
  ghost predicate AllReportApplied(w: World, d: Defn, lost: set<Id>) {
    forall c :: c in d.members ==> ReportsApplied(w, d, lost, c)
  }

  ghost predicate ReportsApplied(w: World, d: Defn, lost: set<Id>, c: Id) {
    c !in lost && c in w.sites && ApplyOn(AfterReads(w.sites[c]), d).1.status == Applied
  }

  /** The status a create collects from a member: its own, or failed if the report was lost. */
  ghost predicate OwnStatus(w: World, d: Defn, lost: set<Id>, c: Id, s: Status) {
    c in w.sites && s == if c in lost then Failed else ApplyOn(AfterReads(w.sites[c]), d).1.status
  }

  lemma CollectedIsOwn(w: World, d: Defn, lost: set<Id>)
    requires Distinct(d.members) && Checked(w, d).ok
    ensures Collected(w, d, lost).Keys == Elems(d.members)
    ensures forall c :: c in d.members ==> OwnStatus(w, d, lost, c, Collected(w, d, lost)[c])
  {
    CheckedIff(w, d);
    forall c | c in d.members ensures OwnStatus(w, d, lost, c, Collected(w, d, lost)[c]) {
      assert c in ForAll(d.members, DoApply(d));
      assert Checked(w, d).sites[c] == AfterReads(w.sites[c]);
    }
  }

  lemma GoodIffApplied(w: World, d: Defn, lost: set<Id>, c: Id, s: Status)
    requires OwnStatus(w, d, lost, c, s)
    ensures Good(s) <==> ReportsApplied(w, d, lost, c)
  {
    AppliedIff(AfterReads(w.sites[c]), d);
  }

  lemma AllAppliedIff(w: World, d: Defn, lost: set<Id>)
    requires ValidDefn(d) && Checked(w, d).ok
    ensures RollupOf(Collected(w, d, lost)) == AllApplied <==> AllReportApplied(w, d, lost)
  {
    CollectedIsOwn(w, d, lost);
    var st := Collected(w, d, lost);
    RollupMeans(st);
    forall c | c in d.members ensures c in st && (Good(st[c]) <==> ReportsApplied(w, d, lost, c)) {
      assert c in Elems(d.members);
      GoodIffApplied(w, d, lost, c, st[c]);
    }
    assert d.members[0] in d.members;
    assert d.members[0] in st;
    if !AllReportApplied(w, d, lost) {
      var c :| c in d.members && !ReportsApplied(w, d, lost, c);
      assert c in st && !Good(st[c]);
    }
  }

  /** The row holds what was asked for and each member's own status. */
  ghost predicate RowOfCreate(w: World, d: Defn, lost: set<Id>, row: Row) {
    && row.name == d.name && row.desired == d && row.members == d.members && row.enabled
    && row.status.Keys == Elems(d.members) && row.rollup == RollupOf(row.status)
    && forall c :: c in d.members ==> OwnStatus(w, d, lost, c, row.status[c])
  }

  /** The row is there and no other changed, the announcement is withdrawn, every member is as its build left it. */
  ghost predicate Recorded(w: World, after: World, vid: Vid, tok: Token, d: Defn, lost: set<Id>) {
    && after.rows.Keys == w.rows.Keys + {vid} && (forall v :: v in w.rows ==> after.rows[v] == w.rows[v])
    && RowOfCreate(w, d, lost, after.rows[vid])
    && after.inflight == w.inflight - {tok}
    && forall c :: c in d.members ==> BuiltOn(w, d, after, c)
  }

  /** No row changed and the announcement is left to expire. */
  ghost predicate NotRecorded(w: World, after: World, tok: Token, d: Defn) {
    && after.rows == w.rows
    && after.inflight == w.inflight[tok := InFlight(Elems(d.members), d.zone, d.ctrl, w.now + 240)]
  }

  /** A create that passed its pre-flight is recorded exactly when its name and id are free and, unless rollback was
      switched off, every member's report arrived and says applied. It touches no cluster but its members. */
  lemma CreateOutcome(w: World, vid: Vid, tok: Token, d: Defn, atomic: bool, lost: set<Id>)
    requires ValidDefn(d) && forall c :: c in d.members ==> c in w.sites && Acceptable(w.sites[c], d)
    ensures var after := CreateSpan(w, vid, tok, d, atomic, lost);
            if vid !in w.rows && !NameTaken(w.rows, d.name) && (!atomic || AllReportApplied(w, d, lost))
            then Recorded(w, after, vid, tok, d, lost)
            else NotRecorded(w, after, tok, d)
    ensures var after := CreateSpan(w, vid, tok, d, atomic, lost);
            && after.now == w.now && after.sites.Keys == w.sites.Keys
            && forall c :: c in w.sites && c !in d.members ==> after.sites[c] == w.sites[c]
    ensures !atomic || AllReportApplied(w, d, lost) ==>
              forall c :: c in d.members ==> BuiltOn(w, d, CreateSpan(w, vid, tok, d, atomic, lost), c)
  {
    CheckedIff(w, d);
    AllAppliedIff(w, d, lost);
    CollectedRow(w, d, lost);
    var built := CreateSettles(w, vid, tok, d, atomic, lost);
    SettleOutcome(w, built, CreateSpan(w, vid, tok, d, atomic, lost), vid, tok, d, atomic, Collected(w, d, lost), lost);
  }

  lemma CreateSettles(w: World, vid: Vid, tok: Token, d: Defn, atomic: bool, lost: set<Id>) returns (built: World)
    requires ValidDefn(d) && Checked(w, d).ok
    ensures AllBuilt(w, tok, d, built)
    ensures Settled(built, CreateSpan(w, vid, tok, d, atomic, lost), vid, tok, d, atomic, Collected(w, d, lost))
  {
    var p := Checked(w, d);
    built := Fanned(w.(sites := p.sites), tok, d);
    MembersBuilt(w, tok, d);
    CreateIsSettle(w, vid, tok, d, atomic, lost);
    SettleShape(built, vid, tok, d, atomic, Reports(p.sites, ForAll(d.members, DoApply(d)), lost));
  }

  lemma SettleOutcome(w: World, built: World, after: World, vid: Vid, tok: Token, d: Defn, atomic: bool,
      st: map<Id, Status>, lost: set<Id>)
    requires AllBuilt(w, tok, d, built) && Settled(built, after, vid, tok, d, atomic, st)
    requires RowOfCreate(w, d, lost, Row(d.name, d, d.members, st, RollupOf(st), true))
    ensures if vid !in w.rows && !NameTaken(w.rows, d.name) && (!atomic || RollupOf(st) == AllApplied)
            then Recorded(w, after, vid, tok, d, lost)
            else NotRecorded(w, after, tok, d)
    ensures after.now == w.now && after.sites.Keys == w.sites.Keys
    ensures forall c :: c in w.sites && c !in d.members ==> after.sites[c] == w.sites[c]
    ensures !atomic || RollupOf(st) == AllApplied ==> forall c :: c in d.members ==> BuiltOn(w, d, after, c)
  {
    if !atomic || RollupOf(st) == AllApplied {
      forall c | c in d.members ensures BuiltOn(w, d, after, c) { SameSite(w, d, built, after, c); }
    }
    var entry := InFlight(Elems(d.members), d.zone, d.ctrl, w.now + 240);
    if vid !in w.rows && !NameTaken(w.rows, d.name) && (!atomic || RollupOf(st) == AllApplied) {
      assert w.inflight[tok := entry] - {tok} == w.inflight - {tok};
      assert after.rows[vid] == Row(d.name, d, d.members, st, RollupOf(st), true);
      assert RowOfCreate(w, d, lost, after.rows[vid]);
    }
  }

  lemma SameSite(w: World, d: Defn, built: World, after: World, c: Id)
    requires BuiltOn(w, d, built, c) && after.sites == built.sites
    ensures BuiltOn(w, d, after, c)
  {
  }

  lemma CollectedRow(w: World, d: Defn, lost: set<Id>)
    requires Distinct(d.members) && Checked(w, d).ok
    ensures var st := Collected(w, d, lost); RowOfCreate(w, d, lost, Row(d.name, d, d.members, st, RollupOf(st), true))
  {
    CollectedIsOwn(w, d, lost);
  }

  /** What announcing and building leave: every member as its build left it, no other cluster touched. */
  ghost predicate AllBuilt(w: World, tok: Token, d: Defn, built: World) {
    && built.rows == w.rows && built.now == w.now && built.sites.Keys == w.sites.Keys
    && built.inflight == w.inflight[tok := InFlight(Elems(d.members), d.zone, d.ctrl, w.now + 240)]
    && (forall c :: c in d.members ==> BuiltOn(w, d, built, c))
    && forall c :: c in w.sites && c !in d.members ==> built.sites[c] == w.sites[c]
  }

  ghost predicate BuiltOn(w: World, d: Defn, built: World, c: Id) {
    c in w.sites && c in built.sites && built.sites[c] == ApplyOn(AfterReads(w.sites[c]), d).0
  }

  lemma MembersBuilt(w: World, tok: Token, d: Defn)
    requires ValidDefn(d) && Checked(w, d).ok
    ensures AllBuilt(w, tok, d, Fanned(w.(sites := Checked(w, d).sites), tok, d))
  {
    CheckedIff(w, d);
    PreflightMeaning(w.sites, d.members, d, |d.members|);
    assert d.members[..|d.members|] == d.members;
    var sites := Checked(w, d).sites;
    var built := Fanned(w.(sites := sites), tok, d);
    assert built.sites.Keys == w.sites.Keys;
    forall c | c in d.members ensures BuiltOn(w, d, built, c) { MemberBuilt(sites, d, c); }
    forall c | c in w.sites && c !in d.members ensures built.sites[c] == w.sites[c] { OtherSpared(sites, d, c); }
  }

  lemma MemberBuilt(sites: map<Id, Remote>, d: Defn, c: Id)
    requires c in sites && c in d.members
    ensures var after := Perform(sites, ForAll(d.members, DoApply(d)));
            c in after && after[c] == ApplyOn(sites[c], d).0
  {
    assert c in ForAll(d.members, DoApply(d));
  }

  lemma OtherSpared(sites: map<Id, Remote>, d: Defn, c: Id)
    requires c in sites && c !in d.members
    ensures var after := Perform(sites, ForAll(d.members, DoApply(d))); c in after && after[c] == sites[c]
  {
  }

  lemma CreateIsSettle(w: World, vid: Vid, tok: Token, d: Defn, atomic: bool, lost: set<Id>)
    requires Checked(w, d).ok
    ensures var p := Checked(w, d); var reports := Reports(p.sites, ForAll(d.members, DoApply(d)), lost);
            CreateSpan(w, vid, tok, d, atomic, lost)
            == SettleSpan(Fanned(w.(sites := p.sites), tok, d), vid, tok, d, atomic, reports)
  {
  }

  /** The row is inserted, or everything but the members' clusters stays. */
  ghost predicate Settled(w: World, after: World, vid: Vid, tok: Token, d: Defn, atomic: bool, st: map<Id, Status>) {
    && after.now == w.now && after.sites.Keys == w.sites.Keys
    && (forall c :: c in w.sites && c !in d.members ==> after.sites[c] == w.sites[c])
    && if vid !in w.rows && !NameTaken(w.rows, d.name) && (!atomic || RollupOf(st) == AllApplied)
       then
         && after.sites == w.sites && after.inflight == w.inflight - {tok}
         && after.rows == w.rows[vid := Row(d.name, d, d.members, st, RollupOf(st), true)]
       else
         && after.rows == w.rows && after.inflight == w.inflight
         && (!atomic || RollupOf(st) == AllApplied ==> after.sites == w.sites)
  }

  lemma SettleShape(w: World, vid: Vid, tok: Token, d: Defn, atomic: bool, reports: map<Id, Outcome>)
    requires Elems(d.members) <= reports.Keys
    ensures Settled(w, SettleSpan(w, vid, tok, d, atomic, reports), vid, tok, d, atomic, Statuses(reports))
  {
  }

  /** A create that does not pass its pre-flight records, announces and writes nothing. */
  lemma RefusedCreateOutcome(w: World, vid: Vid, tok: Token, d: Defn, atomic: bool, lost: set<Id>)
    requires !Checked(w, d).ok
    ensures var after := CreateSpan(w, vid, tok, d, atomic, lost);
            && after.rows == w.rows && after.inflight == w.inflight && after.now == w.now
            && after.sites.Keys == w.sites.Keys
            && forall c :: c in w.sites ==> after.sites[c].cl == w.sites[c].cl && after.sites[c].log == w.sites[c].log
  {
    PreflightWritesNothing(w.sites, d.members, d, |d.members|);
  }

  lemma {:induction false} PreflightWritesNothing(sites: map<Id, Remote>, members: seq<Id>, d: Defn, n: nat)
    requires n <= |members|
    ensures var p := PreflightSome(sites, members, d, n);
            && p.sites.Keys == sites.Keys
            && forall c :: c in sites ==> p.sites[c].cl == sites[c].cl && p.sites[c].log == sites[c].log
  {
    if n > 0 { PreflightWritesNothing(sites, members, d, n - 1); }
  }

  // ---------------------------------------------------------------- delete

  /** Another recorded span, or an unexpired create in flight, uses the zone on the cluster. */
  ghost predicate ZoneElsewhere(w: World, vid: Vid, c: Id, zone: Id) {
    || (exists v :: v in w.rows && v != vid && c in w.rows[v].members && w.rows[v].desired.zone == zone)
    || (exists t :: t in w.inflight && w.inflight[t].expires >= w.now && c in w.inflight[t].clusters
         && w.inflight[t].zone == zone)
  }

  ghost predicate CtrlElsewhere(w: World, vid: Vid, c: Id, ctrl: Id) {
    || (exists v :: v in w.rows && v != vid && c in w.rows[v].members && w.rows[v].desired.ctrl == ctrl)
    || (exists t :: t in w.inflight && w.inflight[t].expires >= w.now && c in w.inflight[t].clusters
         && w.inflight[t].ctrl == ctrl)
  }

  /** One cluster after a teardown: exactly the listed objects whose deletion got a good reply are gone. */
  lemma TornDown(r: Remote, d: Defn, created: seq<Kind>)
    ensures var after := Teardown(r, d, created).r.cl; var t := r.tick + 1;
            var seen := r.fate(r.tick).Fine();
            var zoneTurn := t + if KVnet in created then 1 else 0;
            var ctrlTurn := zoneTurn + if KZone in created then 1 else 0;
            && after.vnets == r.cl.vnets - (if seen && KVnet in created && r.fate(t).Fine() then {d.name} else {})
            && after.zones == r.cl.zones - (if seen && KZone in created && r.fate(zoneTurn).Fine() then {d.zone}
               else {})
            && after.ctrls == r.cl.ctrls - (if seen && KController in created && r.fate(ctrlTurn).Fine() then {d.ctrl}
               else {})
  {
    if r.Now().Fine() {
      var r1 := r.Read();
      TearSomeShrinks(r1, created, d, 3);
      TearSomeGoes(r1, created, d, 3, KVnet);
      TearSomeGoes(r1, created, d, 3, KZone);
      TearSomeGoes(r1, created, d, 3, KController);
    } else {
      assert r.cl.vnets - {} == r.cl.vnets && r.cl.zones - {} == r.cl.zones && r.cl.ctrls - {} == r.cl.ctrls;
    }
  }

  lemma PurgeLists(w: World, vid: Vid, c: Id, unreadable: set<Id>)
    requires vid in w.rows && c in w.rows[vid].members
    ensures var d := w.rows[vid].desired; var ops := PurgeOps(w, vid, w.rows[vid], unreadable);
            var unsure := c in unreadable && (d.zone != "" || d.ctrl != "");
            && c in ops && ops[c].DoTeardown? && ops[c].d == d
            && KVnet in ops[c].created
            && (KZone in ops[c].created <==> !unsure && !(d.zone != "" && ZoneElsewhere(w, vid, c, d.zone)))
            && (KController in ops[c].created <==> !unsure && !(d.ctrl != "" && CtrlElsewhere(w, vid, c, d.ctrl)))
  {
  }

  /** A full delete with purge, on a member: once the lookup succeeds, the vnet goes, and the zone and the controller go
      unless another span uses them there (or the table could not be read), each exactly when its own deletion gets a
      good reply. Nothing else on the cluster changes. */
  lemma PurgeOutcome(w: World, vid: Vid, c: Id, unreadable: set<Id>)
    requires vid in w.rows && c in w.rows[vid].members && c in w.sites
    ensures var d, r := w.rows[vid].desired, w.sites[c]; var sites := DeleteSpan(w, vid, true, unreadable).sites;
            var unsure := c in unreadable && (d.zone != "" || d.ctrl != "");
            var keepZone := unsure || (d.zone != "" && ZoneElsewhere(w, vid, c, d.zone));
            var keepCtrl := unsure || (d.ctrl != "" && CtrlElsewhere(w, vid, c, d.ctrl));
            var seen, last := r.fate(r.tick).Fine(), r.tick + if keepZone then 2 else 3;
            && c in sites
            && sites[c].cl.vnets == r.cl.vnets - (if seen && r.fate(r.tick + 1).Fine() then {d.name} else {})
            && sites[c].cl.zones == r.cl.zones - (if seen && !keepZone && r.fate(r.tick + 2).Fine() then {d.zone}
               else {})
            && sites[c].cl.ctrls == r.cl.ctrls - (if seen && !keepCtrl && r.fate(last).Fine() then {d.ctrl} else {})
  {
    PurgeLists(w, vid, c, unreadable);
    var op := PurgeOps(w, vid, w.rows[vid], unreadable)[c];
    TornDown(w.sites[c], w.rows[vid].desired, op.created);
    assert DeleteSpan(w, vid, true, unreadable).sites[c] == Do(w.sites[c], op);
  }

  /** A full delete drops the row and no other; without purge it touches no cluster, with purge none but the members. */
  lemma DeleteOutcome(w: World, vid: Vid, purge: bool, unreadable: set<Id>)
    ensures var after := DeleteSpan(w, vid, purge, unreadable);
            && after.rows == w.rows - {vid} && after.inflight == w.inflight && after.now == w.now
            && after.sites.Keys == w.sites.Keys
            && forall c :: c in w.sites && !(purge && vid in w.rows && c in w.rows[vid].members) ==>
                 after.sites[c] == w.sites[c]
  {
    if vid !in w.rows { assert w.rows - {vid} == w.rows; }
  }

  // ---------------------------------------------------------------- edit, reconcile, scan

  /** Only the row `vid` changed, and of it neither name, members nor switch; its rollup fits its statuses, and it
      holds a status for each member and for nobody else. */
  ghost predicate OneRowRefreshed(w: World, after: World, vid: Vid)
    requires vid in w.rows
  {
    && after.rows.Keys == w.rows.Keys && (forall v :: v in w.rows && v != vid ==> after.rows[v] == w.rows[v])
    && after.inflight == w.inflight && after.now == w.now && after.sites.Keys == w.sites.Keys
    && var row, old' := after.rows[vid], w.rows[vid];
       && row.name == old'.name && row.members == old'.members && row.enabled == old'.enabled
       && row.rollup == RollupOf(row.status) && row.status.Keys == Elems(row.members)
  }

  /** The stored status of a member is its own fresh one, failed if its report was lost, not_found if it is unknown. */
  ghost predicate Fresh(w: World, lost: set<Id>, c: Id, s: Status, own: Status) {
    s == if c in lost then Failed else if c in w.sites then own else NotFound
  }

  /** An edit records the new alias if one was given, the networks (old minus deleted) plus added, and each member's own
      outcome; it edits every member and no other cluster. */
  lemma EditOutcome(w: World, vid: Vid, ch: Changes, lost: set<Id>)
    requires vid in w.rows && (ch.alias.Some? || ch.adds != [] || ch.dels != [])
    ensures var after := EditSpan(w, vid, ch, lost); var a, b := w.rows[vid].desired, after.rows[vid].desired;
            && OneRowRefreshed(w, after, vid)
            && b.alias == (if ch.alias.Some? then ch.alias.value else a.alias)
            && NetsOf(b.subnets) == (NetsOf(a.subnets) - CanonSet(ch.dels)) + NetsOf(ch.adds)
            && b.name == a.name && b.zone == a.zone && b.ctrl == a.ctrl && b.peers == a.peers
            && b.vni == a.vni && b.asn == a.asn && b.vrf == a.vrf && b.members == w.rows[vid].members
            && (forall c :: c in w.rows[vid].members && c in w.sites ==>
                  && after.sites[c] == EditOn(w.sites[c], a.name, ch).0
                  && Fresh(w, lost, c, after.rows[vid].status[c], EditOn(w.sites[c], a.name, ch).1))
            && (forall c :: c in w.rows[vid].members && c !in w.sites ==>
                  Fresh(w, lost, c, after.rows[vid].status[c], NotFound))
            && (forall c :: c in w.sites && c !in w.rows[vid].members ==> after.sites[c] == w.sites[c])
  {
    var d := w.rows[vid].desired;
    RecordAfterEdit(d.subnets, ch);
    FanOutcome(w, vid, DoEdit(d.name, ch), lost, Some((ch.alias, EditedSubnets(d.subnets, ch))));
  }

  /** What a fan-out and its merge leave: every member as its routine left it, every status the member's own. */
  lemma FanOutcome(w: World, vid: Vid, op: MemberOp, lost: set<Id>, updates: Option<(Option<string>, seq<Subnet>)>)
    requires vid in w.rows
    ensures var after := FanAndMerge(w, vid, op, lost, updates); var row := after.rows[vid];
            && OneRowRefreshed(w, after, vid)
            && (forall c :: c in row.members && c in w.sites ==>
                  && after.sites[c] == Do(w.sites[c], op)
                  && Fresh(w, lost, c, row.status[c], ReportOf(w.sites[c], op).status))
            && (forall c :: c in row.members && c !in w.sites ==> Fresh(w, lost, c, row.status[c], NotFound))
            && (forall c :: c in w.sites && c !in row.members ==> after.sites[c] == w.sites[c])
            && (updates.None? ==> row.desired == w.rows[vid].desired)
  {
    var members := w.rows[vid].members;
    var st := Statuses(Reports(w.sites, ForAll(members, op), lost));
    MergeMeaning(w.rows[vid], st, updates);
    assert st.Keys == Elems(members);
  }

  /** The merge under the lock: for each member of the row as it is now the fresh status wins over the stored one, which
      stays if there is none; a cluster that is no longer a member has none. */
  lemma MergeMeaning(row: Row, latest: map<Id, Status>, updates: Option<(Option<string>, seq<Subnet>)>)
    ensures var next := MergeWrite(row, latest, updates);
            && next.name == row.name && next.members == row.members && next.enabled == row.enabled
            && next.rollup == RollupOf(next.status)
            && (forall c :: c in next.status <==> c in row.members && (c in latest || c in row.status))
            && (forall c :: c in next.status ==> next.status[c] == if c in latest then latest[c] else row.status[c])
            && match updates
               case None => next.desired == row.desired
               case Some((alias, subs)) =>
                 && next.desired.subnets == subs && next.desired.members == row.members
                 && next.desired.alias == (if alias.Some? then alias.value else row.desired.alias)
                 && next.desired.(alias := "", subnets := [], members := [])
                    == row.desired.(alias := "", subnets := [], members := [])
  {
  }

  /** A reconcile runs on every member and on no other cluster, and stores each member's own outcome. */
  lemma ReconcileOutcome(w: World, vid: Vid, lost: set<Id>)
    requires vid in w.rows
    ensures var after := ReconcileSpan(w, vid, lost); var row, d := after.rows[vid], w.rows[vid].desired;
            && OneRowRefreshed(w, after, vid) && row.desired == d
            && (forall c :: c in row.members && c in w.sites ==>
                  && after.sites[c] == ReconcileOn(w.sites[c], d).0
                  && Fresh(w, lost, c, row.status[c], ReconcileOn(w.sites[c], d).1.status))
            && (forall c :: c in row.members && c !in w.sites ==> Fresh(w, lost, c, row.status[c], NotFound))
            && (forall c :: c in w.sites && c !in row.members ==> after.sites[c] == w.sites[c])
  {
    FanOutcome(w, vid, DoReconcile(w.rows[vid].desired), lost, None);
  }

  /** The vnet has the recorded zone and VNI, or a blank in their place, and the recorded alias. */
  predicate LooksRight(v: Vnet, d: Defn) {
    (v.zone == "" || v.zone == d.zone) && (v.tag == 0 || v.tag == d.vni) && v.alias == d.alias
  }

  /** What each live status says of the lookup, the listing of the vnets and the vnet. */
  lemma LiveStatusMeaning(r: Remote, d: Defn)
    ensures var s := LiveStatusOn(r, d).1; var lookup, list := r.fate(r.tick), r.fate(r.tick + 1);
            && (s == Offline <==> lookup == Bad) && (s == NotFound <==> lookup == Absent)
            && (s == SdnMissing <==> lookup.Fine() && list == Absent)
            && (s == Unreadable <==> lookup.Fine() && list == Bad)
            && (s == Missing <==> lookup.Fine() && list.Fine() && d.name !in r.cl.vnets)
            && (s == InSync <==>
                  lookup.Fine() && list.Fine() && d.name in r.cl.vnets && LooksRight(r.cl.vnets[d.name], d))
            && (s == Drift <==>
                  lookup.Fine() && list.Fine() && d.name in r.cl.vnets && !LooksRight(r.cl.vnets[d.name], d))
  {
  }

  /** A scan writes to no cluster and stores each member's live status. */
  lemma ScanOutcome(w: World, vid: Vid)
    requires vid in w.rows
    ensures var after := ScanSpan(w, vid); var row, d := after.rows[vid], w.rows[vid].desired;
            && OneRowRefreshed(w, after, vid) && row.desired == d
            && (forall c :: c in w.sites ==> after.sites[c].cl == w.sites[c].cl && after.sites[c].log == w.sites[c].log)
            && (forall c :: c in row.members && c in w.sites ==> row.status[c] == LiveStatusOn(w.sites[c], d).1)
            && (forall c :: c in row.members && c !in w.sites ==> row.status[c] == NotFound)
  {
    FanOutcome(w, vid, DoLook(w.rows[vid].desired), {}, None);
    forall c | c in w.sites ensures Looked(w, vid, c) { OneLooked(w, vid, c); }
  }

  ghost predicate Looked(w: World, vid: Vid, c: Id)
    requires vid in w.rows && c in w.sites
  {
    var after := ScanSpan(w, vid);
    && vid in after.rows && c in after.sites
    && after.sites[c].cl == w.sites[c].cl && after.sites[c].log == w.sites[c].log
    && (c in w.rows[vid].members ==>
          c in after.rows[vid].status && after.rows[vid].status[c] == LiveStatusOn(w.sites[c], w.rows[vid].desired).1)
  }

  lemma OneLooked(w: World, vid: Vid, c: Id)
    requires vid in w.rows && c in w.sites
    ensures Looked(w, vid, c)
  {
    var d := w.rows[vid].desired;
    FanOutcome(w, vid, DoLook(d), {}, None);
    LookLeaves(w.sites[c], d);
  }

  lemma LookLeaves(r: Remote, d: Defn)
    ensures Do(r, DoLook(d)).cl == r.cl && Do(r, DoLook(d)).log == r.log
    ensures ReportOf(r, DoLook(d)).status == LiveStatusOn(r, d).1
  {
  }

  // ---------------------------------------------------------------- re-apply

  ghost predicate StoredGood(row: Row, c: Id) { c in row.status && Good(row.status[c]) }

  /** A re-apply takes the members whose stored status is not good, or all of them when every one is. */
  ghost predicate Redone(row: Row, c: Id) {
    c in row.members && (!StoredGood(row, c) || forall m :: m in row.members ==> StoredGood(row, m))
  }

  lemma {:induction false} UnhealthyMeaning(members: seq<Id>, st: map<Id, Status>)
    ensures forall c :: c in Unhealthy(members, st) <==> c in members && !(c in st && Good(st[c]))
  {
    if members != [] {
      UnhealthyMeaning(members[..|members| - 1], st);
      assert members == members[..|members| - 1] + [members[|members| - 1]];
    }
  }

  lemma TodoMeaning(row: Row)
    ensures forall c :: c in Todo(row) <==> Redone(row, c)
  {
    UnhealthyMeaning(row.members, row.status);
    var off := Unhealthy(row.members, row.status);
    if off == [] {
      forall c | c in row.members ensures StoredGood(row, c) { assert c !in off; }
    } else {
      assert off[0] in off;
      assert !StoredGood(row, off[0]);
    }
  }

  /** A re-apply rebuilds exactly those members and stores their own outcomes; the rollup is that of the members. */
  lemma ReapplyOutcome(w: World, vid: Vid, lost: set<Id>)
    requires vid in w.rows
    ensures var after := ReapplySpan(w, vid, lost); var before := w.rows[vid];
            && after.rows.Keys == w.rows.Keys && (forall v :: v in w.rows && v != vid ==> after.rows[v] == w.rows[v])
            && after.inflight == w.inflight && after.now == w.now && after.sites.Keys == w.sites.Keys
            && after.rows[vid] == before.(status := after.rows[vid].status, rollup := after.rows[vid].rollup)
            && (forall c :: c in w.sites ==>
                  after.sites[c] == if Redone(before, c) then ApplyOn(w.sites[c], before.desired).0 else w.sites[c])
            && StatusesRedone(w, before, lost, after.rows[vid].status)
            && after.rows[vid].rollup
               == RollupOf(map c | c in before.members && c in after.rows[vid].status :: after.rows[vid].status[c])
  {
    var row := w.rows[vid];
    TodoMeaning(row);
    var ops := ForAll(Todo(row), DoApply(row.desired));
    forall c ensures c in ops <==> Redone(row, c) { assert c in ops <==> c in Todo(row); }
    var merged := row.status + Statuses(Reports(w.sites, ops, lost));
    RedoneStatuses(w, row, lost, ops);
    assert (map c | c in row.members :: if c in merged then merged[c] else Failed)
           == map c | c in row.members && c in merged :: merged[c];
  }

  /** A redone member has its own fresh status, any other status is the stored one, and every member has one. */
  ghost predicate StatusesRedone(w: World, row: Row, lost: set<Id>, st: map<Id, Status>) {
    && (forall c :: c in row.members ==> c in st)
    && (forall c :: Redone(row, c) && c in w.sites ==>
          Fresh(w, lost, c, st[c], ApplyOn(w.sites[c], row.desired).1.status))
    && (forall c :: Redone(row, c) && c !in w.sites ==> Fresh(w, lost, c, st[c], NotFound))
    && (forall c :: !Redone(row, c) ==> (c in st <==> c in row.status) && (c in row.status ==> st[c] == row.status[c]))
  }

  lemma RedoneStatuses(w: World, row: Row, lost: set<Id>, ops: map<Id, MemberOp>)
    requires forall c :: c in ops <==> Redone(row, c)
    requires forall c :: c in ops ==> ops[c] == DoApply(row.desired)
    ensures StatusesRedone(w, row, lost, row.status + Statuses(Reports(w.sites, ops, lost)))
  {
  }

  // ---------------------------------------------------------------- members

  /** Adding a cluster succeeds exactly when it is new, known, readable and free of conflicts and its build reports
      applied: then it is the last member in column and definition and has the status applied. Otherwise no row
      changes. */
  lemma AddOutcome(w: World, vid: Vid, c: Id)
    ensures var after := AddMember(w, vid, c);
            && after.inflight == w.inflight && after.now == w.now && after.sites.Keys == w.sites.Keys
            && (forall m :: m in w.sites && m != c ==> after.sites[m] == w.sites[m])
            && if vid in w.rows && c != "" && c !in w.rows[vid].members && c in w.sites
                  && Acceptable(w.sites[c], w.rows[vid].desired)
                  && ApplyOn(AfterReads(w.sites[c]), w.rows[vid].desired).1.status == Applied
               then
                 var row, before := after.rows[vid], w.rows[vid];
                 && after.rows.Keys == w.rows.Keys
                 && (forall v :: v in w.rows && v != vid ==> after.rows[v] == w.rows[v])
                 && row.members == before.members + [c]
                 && row.desired == before.desired.(members := before.members + [c])
                 && row.status == before.status[c := Applied] && row.rollup == RollupOf(row.status)
                 && row.name == before.name && row.enabled == before.enabled
                 && after.sites[c] == ApplyOn(AfterReads(w.sites[c]), before.desired).0
               else after.rows == w.rows
  {
    if vid in w.rows && c in w.sites { PreflightOneMeaning(w.sites[c], w.rows[vid].desired); }
  }

  lemma {:induction false} FilterKeeps(s: seq<Id>, c: Id)
    requires c !in s
    ensures Filter(s, c) == s
  {
    if s != [] {
      FilterKeeps(s[..|s| - 1], c);
      assert s == s[..|s| - 1] + [s[|s| - 1]];
    }
  }

  lemma {:induction false} FilterAround(before: seq<Id>, c: Id, after: seq<Id>)
    requires c !in before && c !in after
    ensures Filter(before + [c] + after, c) == before + after
  {
    var all := before + [c] + after;
    if after == [] {
      assert all[..|all| - 1] == before && all[|all| - 1] == c;
      FilterKeeps(before, c);
      assert before + after == before;
    } else {
      var rest, last := after[..|after| - 1], after[|after| - 1];
      FilterAround(before, c, rest);
      assert all[..|all| - 1] == before + [c] + rest && all[|all| - 1] == last;
      assert before + after == before + rest + [last];
    }
  }

  /** Removing a member cuts it, and nothing else, out of the member list. */
  lemma FilterCuts(s: seq<Id>, i: nat)
    requires i < |s| && Distinct(s)
    ensures Filter(s, s[i]) == s[..i] + s[i + 1..]
  {
    var before, c, after := s[..i], s[i], s[i + 1..];
    assert s == before + [c] + after;
    assert c !in before && c !in after by {
      assert forall k :: 0 <= k < |before| ==> before[k] == s[k];
      assert forall k :: 0 <= k < |after| ==> after[k] == s[i + 1 + k];
    }
    FilterAround(before, c, after);
  }

  /** The row without member `i`: in column, definition and statuses. */
  ghost predicate RowWithout(before: Row, i: nat, row: Row)
    requires i < |before.members|
  {
    var left := before.members[..i] + before.members[i + 1..];
    && row.members == left && row.desired == before.desired.(members := left)
    && row.status == before.status - {before.members[i]} && row.rollup == RollupOf(row.status)
    && row.name == before.name && row.enabled == before.enabled
  }

  /** Removing one of several members cuts it out of the row; with purge the vnet goes from that cluster exactly when
      lookup and deletion get good replies, and zones, controllers and other vnets stay. The last member is never
      removed. */
  lemma RemoveOutcome(w: World, vid: Vid, i: nat, purge: bool)
    requires vid in w.rows && i < |w.rows[vid].members| && Distinct(w.rows[vid].members)
    ensures var before := w.rows[vid]; var c := before.members[i]; var after := RemoveMember(w, vid, c, purge);
            if |before.members| == 1 then after == w
            else
              && after.rows.Keys == w.rows.Keys && (forall v :: v in w.rows && v != vid ==> after.rows[v] == w.rows[v])
              && RowWithout(before, i, after.rows[vid])
              && after.inflight == w.inflight && after.now == w.now && after.sites.Keys == w.sites.Keys
              && (forall m :: m in w.sites && (m != c || !purge) ==> after.sites[m] == w.sites[m])
              && (purge && c in w.sites ==> VnetGone(w.sites[c], after.sites[c].cl, before.desired.name))
  {
    var before := w.rows[vid];
    var c := before.members[i];
    assert c in before.members;
    if |before.members| > 1 {
      FilterCuts(before.members, i);
      assert |before.members[..i] + before.members[i + 1..]| > 0;
      if purge && c in w.sites { VnetOnly(w.sites[c], before.desired); }
    }
  }

  /** The vnet is gone if lookup and deletion got good replies; nothing else changed. */
  ghost predicate VnetGone(r: Remote, after: Cluster, name: Id) {
    && after.zones == r.cl.zones && after.ctrls == r.cl.ctrls
    && after.vnets == r.cl.vnets - (if r.fate(r.tick).Fine() && r.fate(r.tick + 1).Fine() then {name} else {})
  }

  lemma VnetOnly(r: Remote, d: Defn)
    ensures VnetGone(r, Teardown(r, d, [KVnet]).r.cl, d.name)
  {
    TornDown(r, d, [KVnet]);
  }

  // ---------------------------------------------------------------- a scanner pass

  /** A pass touches no row outside its list, and neither adds nor drops one. */
  lemma {:induction false} PassFrame(w: World, order: seq<Vid>, on: bool, n: nat)
    requires n <= |order|
    ensures var after := ScanSome(w, order, on, n);
            && after.rows.Keys == w.rows.Keys && after.inflight == w.inflight && after.now == w.now
            && after.sites.Keys == w.sites.Keys
            && forall v :: v in w.rows && v !in order[..n] ==> after.rows[v] == w.rows[v]
  {
    if n > 0 {
      PassFrame(w, order, on, n - 1);
      assert order[..n] == order[..n - 1] + [order[n - 1]];
    }
  }

  /** Each listed row is scanned once, on the clusters as the rows before it left them. */
  lemma {:induction false} PassVisits(w: World, order: seq<Vid>, on: bool, n: nat, i: nat)
    requires i < n <= |order| && Distinct(order) && order[i] in w.rows
    ensures var v, before, after := order[i], ScanSome(w, order, on, i), ScanSome(w, order, on, n);
            v in after.rows && after.rows[v] == ScanRow(before.sites, w.rows[v], on).row
  {
    PassFrame(w, order, on, n - 1);
    if i < n - 1 { PassVisits(w, order, on, n - 1, i); }
  }
}
