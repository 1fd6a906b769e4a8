/** The background scanner over whole runs: one row, any number of passes, and anything happening to the
    clusters between two passes. */
module SdnScanner {
  import opened SdnTypes
  import opened SdnRemote
  import opened SdnReconcile
  import opened SdnWorld

  /** The clusters as a pass finds them, and the auto-reconcile setting at that time. */
  datatype Pass = Pass(sites: map<Id, Remote>, on: bool)

  function After(row: Row, passes: seq<Pass>): Row {
    if passes == [] then row
    else var p := passes[|passes| - 1]; ScanRow(p.sites, After(row, passes[..|passes| - 1]), p.on).row
  }

  /** The alerts emitted for member `c` over a run. */
  function Alerts(row: Row, passes: seq<Pass>, c: Id): nat {
    if passes == [] then 0
    else
      var init, p := passes[..|passes| - 1], passes[|passes| - 1];
      Alerts(row, init, c) + if c in ScanRow(p.sites, After(row, init), p.on).alerts then 1 else 0
  }

  /** `stored[i]` is what the table says about `c` before pass `i`: off (drift or missing) or not. */
  ghost function Stored(row: Row, passes: seq<Pass>, c: Id): seq<bool> {
    if passes == [] then [Off(row.status, c)]
    else Stored(row, passes[..|passes| - 1], c) + [Off(After(row, passes).status, c)]
  }

  /** How often a sequence goes from false to true. */
  function Rises(s: seq<bool>): nat {
    if |s| <= 1 then 0 else Rises(s[..|s| - 1]) + if s[|s| - 1] && !s[|s| - 2] then 1 else 0
  }

  lemma {:induction false} PassesKeepMembers(row: Row, passes: seq<Pass>)
    ensures After(row, passes).members == row.members && After(row, passes).desired == row.desired
    ensures After(row, passes).enabled == row.enabled
  {
    if passes != [] { PassesKeepMembers(row, passes[..|passes| - 1]); }
  }

  lemma {:induction false} StoredLast(row: Row, passes: seq<Pass>, c: Id)
    ensures var s := Stored(row, passes, c); |s| == |passes| + 1 && s[|passes|] == Off(After(row, passes).status, c)
  {
    if passes != [] { StoredLast(row, passes[..|passes| - 1], c); }
  }

  /** A member is alerted on once per transition of its stored status into drift or missing, however long it stays
      there. */
  lemma {:induction false} AlertsAreTransitions(row: Row, passes: seq<Pass>, c: Id)
    requires c in row.members
    ensures Alerts(row, passes, c) == Rises(Stored(row, passes, c))
  {
    if passes != [] {
      var init, p := passes[..|passes| - 1], passes[|passes| - 1];
      AlertsAreTransitions(row, init, c);
      StoredLast(row, init, c);
      PassesKeepMembers(row, init);
      var s := Stored(row, passes, c);
      assert s[..|s| - 1] == Stored(row, init, c);
    }
  }

  // ---------------------------------------------------------------- which clusters a pass writes to

  /** The pass repairs `c`: the setting is on, and `c` reads as drift, or as missing for the second pass running. */
  predicate Repairs(p: Pass, row: Row, c: Id)
    requires c in p.sites
  {
    && p.on && row.enabled && c in row.members
    && var live := LiveStatusOn(p.sites[c], row.desired).1;
       live.Drift? || (live.Missing? && Off(row.status, c))
  }

  function Looked(r: Remote, d: Defn): Remote { LiveStatusOn(r, d).0 }

  /** A repaired cluster is read, reconciled once and read again; on every other cluster a pass only reads. */
  lemma PassWrites(p: Pass, row: Row, c: Id)
    requires c in p.sites
    ensures var after := ScanRow(p.sites, row, p.on).sites;
            && c in after
            && (Repairs(p, row, c) ==>
                  after[c] == Looked(ReconcileOn(Looked(p.sites[c], row.desired), row.desired).0, row.desired))
            && (!Repairs(p, row, c) ==> after[c].cl == p.sites[c].cl && after[c].log == p.sites[c].log)
  {
    FixedAreRepaired(p, row, c);
    if c in row.members && row.enabled { PassOnMember(p, row, c); }
  }

  lemma FixedAreRepaired(p: Pass, row: Row, c: Id)
    requires c in p.sites
    ensures c in ScanRow(p.sites, row, p.on).fixed <==> Repairs(p, row, c)
  {
  }

  lemma LookOnlyReads(r: Remote, d: Defn)
    ensures Looked(r, d).cl == r.cl && Looked(r, d).log == r.log && Looked(r, d).fate == r.fate
            && Looked(r, d).tick > r.tick
  {
  }

  lemma PassOnMember(p: Pass, row: Row, c: Id)
    requires c in p.sites && c in row.members && row.enabled
    ensures var s := ScanRow(p.sites, row, p.on); var d := row.desired;
            && c in s.sites
            && (c in s.fixed ==> s.sites[c] == Looked(ReconcileOn(Looked(p.sites[c], d), d).0, d))
            && (c !in s.fixed ==> s.sites[c].cl == p.sites[c].cl && s.sites[c].log == p.sites[c].log)
  {
    var d := row.desired;
    var s := ScanRow(p.sites, row, p.on);
    LookOnlyReads(p.sites[c], d);
    LookOnlyReads(Looked(p.sites[c], d), d);
    var look := ForAll(row.members, DoLook(d));
    var seen := Perform(p.sites, look);
    assert seen[c] == Looked(p.sites[c], d);
    var mended := Perform(seen, map m | m in s.fixed :: DoReconcile(d));
    assert s.sites == if s.fixed == {} then seen else Perform(mended, look);
  }

  /** With the setting off no cluster is written; an in_sync member never is; a member that just went missing is left
      alone. */
  lemma QuietPass(p: Pass, row: Row, c: Id)
    requires c in p.sites
    requires var live := LiveStatusOn(p.sites[c], row.desired).1;
             !p.on || live.InSync? || (live.Missing? && !Off(row.status, c))
    ensures var after := ScanRow(p.sites, row, p.on).sites;
            c in after && after[c].cl == p.sites[c].cl && after[c].log == p.sites[c].log
  {
    PassWrites(p, row, c);
  }

  // ---------------------------------------------------------------- what repair achieves

  /** What a pass does to an enabled row: it stores a status for every member and for nobody else, not_found for an
      unknown cluster, and the rollup of these; an alert is raised for each member that is off now and was not stored as
      off. Of any other row it leaves everything as it was. */
  lemma PassStores(p: Pass, row: Row)
    ensures var s := ScanRow(p.sites, row, p.on); var st := s.row.status;
            && s.row == row.(status := st, rollup := s.row.rollup)
            && (!row.enabled || row.members == [] ==> s.row == row && s.sites == p.sites && s.alerts == {})
            && (row.enabled && row.members != [] ==>
                  && st.Keys == Elems(row.members) && s.row.rollup == RollupOf(st)
                  && (forall c :: c in row.members && c !in p.sites ==> st[c] == NotFound)
                  && (forall c :: c in s.alerts <==>
                        && c in row.members && (st[c] == Drift || st[c] == Missing)
                        && !(c in row.status && (row.status[c] == Drift || row.status[c] == Missing))))
  {
    if row.enabled && row.members != [] {
      var seen := PassShape(p, row);
      LookedAt(seen, row.members, row.desired);
    }
  }

  lemma PassShape(p: Pass, row: Row) returns (seen: map<Id, Remote>)
    requires row.enabled && row.members != []
    ensures var s := ScanRow(p.sites, row, p.on);
            var final := Statuses(Reports(seen, ForAll(row.members, DoLook(row.desired)), {}));
            && seen.Keys == p.sites.Keys
            && s.row == row.(status := final, rollup := RollupOf(final))
            && s.alerts == set c | c in row.members && Off(final, c) && !Off(row.status, c)
  {
    var look := ForAll(row.members, DoLook(row.desired));
    var fixed := ScanRow(p.sites, row, p.on).fixed;
    seen := if fixed == {} then p.sites
            else Perform(Perform(p.sites, look), map c | c in fixed :: DoReconcile(row.desired));
  }

  lemma LookedAt(sites: map<Id, Remote>, members: seq<Id>, d: Defn)
    ensures var st := Statuses(Reports(sites, ForAll(members, DoLook(d)), {}));
            st.Keys == Elems(members) && forall c :: c in members && c !in sites ==> st[c] == NotFound
  {
  }

  /** The status a pass stores for a member: as it reads after the repair if it was repaired, else as it reads. */
  lemma StoredStatus(p: Pass, row: Row, c: Id)
    requires c in p.sites && c in row.members && row.enabled
    ensures var s := ScanRow(p.sites, row, p.on).row.status;
            var d, seen := row.desired, Looked(p.sites[c], row.desired);
            c in s && s[c] == if Repairs(p, row, c) then LiveStatusOn(ReconcileOn(seen, d).0, d).1
                              else if ScanRow(p.sites, row, p.on).fixed == {} then LiveStatusOn(p.sites[c], d).1
                              else LiveStatusOn(seen, d).1
  {
    FixedAreRepaired(p, row, c);
    var s := ScanRow(p.sites, row, p.on);
    var look := ForAll(row.members, DoLook(row.desired));
    if s.fixed == {} {
      assert s.row.status == Statuses(Reports(p.sites, look, {}));
    } else {
      var seen := Perform(p.sites, look);
      var mended := Perform(seen, map m | m in s.fixed :: DoReconcile(row.desired));
      assert s.row.status == Statuses(Reports(mended, look, {}));
      assert seen[c] == Looked(p.sites[c], row.desired);
    }
  }

  /** A pass without failures repairs a drifted alias and raises no alert for it. */
  lemma AliasDriftIsRepaired(p: Pass, row: Row, c: Id)
    requires c in p.sites && c in row.members && row.enabled && p.on && AllGood(p.sites[c])
    requires Classify(p.sites[c].cl, row.desired).Drift? && VnetFits(p.sites[c].cl.vnets[row.desired.name], row.desired)
    ensures var s := ScanRow(p.sites, row, true); c in s.row.status && s.row.status[c].InSync? && c !in s.alerts
  {
    RepairEndsInSync(p.sites[c], row.desired);
    StoredStatus(p, row, c);
    NoAlertInSync(p, row, c);
  }

  lemma RepairEndsInSync(r: Remote, d: Defn)
    requires AllGood(r) && Classify(r.cl, d).Drift? && VnetFits(r.cl.vnets[d.name], d)
    ensures LiveStatusOn(r, d).1.Drift? && LiveStatusOn(ReconcileOn(Looked(r, d), d).0, d).1.InSync?
  {
    LookOnlyReads(r, d);
    ReconcileConverges(Looked(r, d), d);
  }

  lemma NoAlertInSync(p: Pass, row: Row, c: Id)
    requires var s := ScanRow(p.sites, row, p.on); c in s.row.status && s.row.status[c].InSync?
    requires row.enabled && c in row.members
    ensures c !in ScanRow(p.sites, row, p.on).alerts
  {
  }

  /** A member found missing by two consecutive passes without failures is alerted on in the first, left alone
      then, and rebuilt and stored as in_sync by the second. */
  lemma MissingIsRebuiltOnSecondSight(row: Row, first: Pass, second: Pass, c: Id)
    requires c in row.members && row.enabled && !Off(row.status, c) && first.on && second.on
    requires c in first.sites && AllGood(first.sites[c]) && row.desired.name !in first.sites[c].cl.vnets
    requires c in second.sites && second.sites[c] == ScanRow(first.sites, row, true).sites[c]
    ensures var one := ScanRow(first.sites, row, true);
            var two := ScanRow(second.sites, one.row, true);
            && c in one.alerts && second.sites[c].cl == first.sites[c].cl && c !in two.alerts
            && c in two.row.status && two.row.status[c].InSync?
  {
    FirstSight(row, first, c);
    SecondSight(ScanRow(first.sites, row, true).row, second, c);
  }

  lemma SecondSight(row: Row, p: Pass, c: Id)
    requires c in row.members && row.enabled && Off(row.status, c) && p.on
    requires c in p.sites && AllGood(p.sites[c]) && row.desired.name !in p.sites[c].cl.vnets
    ensures var s := ScanRow(p.sites, row, true); c in s.row.status && s.row.status[c].InSync? && c !in s.alerts
  {
    StoredStatus(p, row, c);
    LookOnlyReads(p.sites[c], row.desired);
    ReconcileConverges(Looked(p.sites[c], row.desired), row.desired);
  }

  lemma FirstSight(row: Row, p: Pass, c: Id)
    requires c in row.members && row.enabled && !Off(row.status, c) && p.on
    requires c in p.sites && AllGood(p.sites[c]) && row.desired.name !in p.sites[c].cl.vnets
    ensures var s := ScanRow(p.sites, row, true);
            && s.row.desired == row.desired && s.row.members == row.members && s.row.enabled
            && c in s.row.status && s.row.status[c].Missing? && c in s.alerts
            && c in s.sites && s.sites[c].cl == p.sites[c].cl && AllGood(s.sites[c])
  {
    StoredStatus(p, row, c);
    PassWrites(p, row, c);
    LookOnlyReads(p.sites[c], row.desired);
    LookOnlyReads(Looked(p.sites[c], row.desired), row.desired);
    LaterTicks(p, row, c);
  }

  lemma LaterTicks(p: Pass, row: Row, c: Id)
    requires c in p.sites && !Repairs(p, row, c)
    ensures var after := ScanRow(p.sites, row, p.on).sites;
            c in after && after[c].fate == p.sites[c].fate && after[c].tick >= p.sites[c].tick
  {
    FixedAreRepaired(p, row, c);
    LookOnlyReads(p.sites[c], row.desired);
    LookOnlyReads(Looked(p.sites[c], row.desired), row.desired);
    if c in row.members && row.enabled {
      var s := ScanRow(p.sites, row, p.on);
      var look := ForAll(row.members, DoLook(row.desired));
      var seen := Perform(p.sites, look);
      assert seen[c] == Looked(p.sites[c], row.desired);
      var mended := Perform(seen, map m | m in s.fixed :: DoReconcile(row.desired));
      assert s.sites == if s.fixed == {} then seen else Perform(mended, look);
    }
  }
}
