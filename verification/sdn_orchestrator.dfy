/** The handlers as they run: the managers of the clusters, the table of spans and the register of creates in
    flight, changed step by step. Each handler is proved to take the world to the state its step function names. */
module SdnOrchestrator {
  import opened Wrappers
  import opened SdnTypes
  import opened SdnRemote
  import opened SdnEdit
  import opened SdnWorld
  import opened SdnManager

  class Orchestrator {
    const managers: map<Id, Manager>
    var rows: map<Vid, Row>
    var inflight: map<Token, InFlight>
    var now: int

    /** Different clusters have different managers. */
    ghost predicate Valid() {
      forall a, b :: a in managers && b in managers && a != b ==> managers[a] != managers[b]
    }

    ghost function Sites(): map<Id, Remote>
      reads managers.Values
    {
      map c | c in managers :: managers[c].View()
    }

    ghost function State(): World
      reads this, managers.Values
    {
      World(Sites(), rows, inflight, now)
    }

    constructor (managers: map<Id, Manager>)
      ensures this.managers == managers && rows == map[] && inflight == map[] && now == 0
    {
      this.managers, rows, inflight, now := managers, map[], map[], 0;
    }

    // -------------------------------------------------------------- fan-out

    method RunOn(m: Manager, op: MemberOp) returns (out: Outcome)
      modifies m
      ensures m.View() == Do(old(m.View()), op) && out == ReportOf(old(m.View()), op)
    {
      match op
      case DoApply(d) => out := m.ApplyOnCluster(d);
      case DoReconcile(d) => out := m.ReconcileOnCluster(d);
      case DoEdit(name, ch) => var st := m.EditOnCluster(name, ch); out := Outcome(st, []);
      case DoTeardown(d, created) => var deleted := m.TeardownCreated(d, created); out := Outcome(Applied, deleted);
      case DoLook(d) => var st := m.LiveStatusOnCluster(d); out := Outcome(st, []);
    }

    /** Run each member's routine, in any order; a member in `lost` runs but its report never arrives. */
    method FanOut(ops: map<Id, MemberOp>, lost: set<Id>) returns (reports: map<Id, Outcome>)
      requires Valid()
      modifies managers.Values
      ensures Sites() == Perform(old(Sites()), ops) && reports == Reports(old(Sites()), ops, lost)
    {
      reports := map[];
      var todo := ops.Keys;
      while todo != {}
        invariant todo <= ops.Keys && reports.Keys == ops.Keys - todo
        invariant forall c :: c in managers ==>
                              managers[c].View() == if c in ops.Keys - todo then Do(old(managers[c].View()), ops[c])
                                                    else old(managers[c].View())
        invariant forall c :: c in reports ==> reports[c] == Reports(old(Sites()), ops, lost)[c]
        decreases todo
      {
        var c :| c in todo;
        var out := Outcome(NotFound, []);
        if c in managers { out := RunOn(managers[c], ops[c]); }
        reports := reports[c := if c in lost then Outcome(Failed, []) else out];
        todo := todo - {c};
      }
    }

    // -------------------------------------------------------------- shared infrastructure

    /** Whether another span, recorded or in flight, uses the zone and the controller on cluster `c`. The row loop
        stops as soon as both are known to be shared. */
    method SharedInfraOnCluster(vid: Vid, c: Id, d: Defn, unreadable: set<Id>) returns (zone: bool, ctrl: bool)
      ensures (zone, ctrl) == SharedInfra(State(), vid, c, d, unreadable)
    {
      if d.zone == "" && d.ctrl == "" { return false, false; }
      if c in unreadable { return true, true; }
      zone, ctrl := false, false;
      var todo := rows.Keys;
      while todo != {}
        invariant todo <= rows.Keys
        invariant zone <==>
                  (d.zone != "" && exists v :: v in rows.Keys - todo && v != vid &&
                                               c in rows[v].members && rows[v].desired.zone == d.zone)
        invariant ctrl <==>
                  (d.ctrl != "" && exists v :: v in rows.Keys - todo && v != vid &&
                                               c in rows[v].members && rows[v].desired.ctrl == d.ctrl)
        decreases todo
      {
        var v :| v in todo;
        todo := todo - {v};
        if v != vid && c in rows[v].members {
          if d.zone != "" && rows[v].desired.zone == d.zone { zone := true; }
          if d.ctrl != "" && rows[v].desired.ctrl == d.ctrl { ctrl := true; }
          if zone && ctrl { break; }
        }
      }
      assert zone <==> d.zone != "" && ZoneRecorded(rows, vid, c, d.zone);
      assert ctrl <==> d.ctrl != "" && CtrlRecorded(rows, vid, c, d.ctrl);
      var pz, pk := ProvisioningShares(c, d.zone, d.ctrl);
      zone, ctrl := zone || pz, ctrl || pk;
    }

    method ProvisioningShares(c: Id, zone: Id, ctrl: Id) returns (z: bool, k: bool)
      ensures z <==> zone != "" && ZoneInFlight(inflight, now, c, zone)
      ensures k <==> ctrl != "" && CtrlInFlight(inflight, now, c, ctrl)
    {
      z, k := false, false;
      var todo := inflight.Keys;
      while todo != {}
        invariant todo <= inflight.Keys
        invariant z <==>
                  (zone != "" && exists t :: t in inflight.Keys - todo && inflight[t].expires >= now &&
                                             c in inflight[t].clusters && inflight[t].zone == zone)
        invariant k <==>
                  (ctrl != "" && exists t :: t in inflight.Keys - todo && inflight[t].expires >= now &&
                                             c in inflight[t].clusters && inflight[t].ctrl == ctrl)
        decreases todo
      {
        var t :| t in todo;
        todo := todo - {t};
        if !(inflight[t].expires < now || c !in inflight[t].clusters) {
          if zone != "" && inflight[t].zone == zone { z := true; }
          if ctrl != "" && inflight[t].ctrl == ctrl { k := true; }
        }
      }
    }

    // -------------------------------------------------------------- locked sections

    method MergeStatusWrite(vid: Vid, latest: map<Id, Status>, updates: Option<(Option<string>, seq<Subnet>)>)
      modifies this`rows
      ensures rows == if vid in old(rows) then old(rows)[vid := MergeWrite(old(rows)[vid], latest, updates)]
              else old(rows)
    {
      if vid !in rows { return; }
      var row := rows[vid];
      var merged := row.status + latest;
      merged := map c | c in row.members && c in merged :: merged[c];
      assert merged == Merged(row, latest);
      var next := row.(status := merged, rollup := RollupOf(merged));
      if updates.Some? {
        var (alias, subs) := updates.value;
        var defn := row.desired.(subnets := subs);
        if alias.Some? { defn := defn.(alias := alias.value); }
        next := next.(desired := defn.(members := row.members));
      }
      rows := rows[vid := next];
    }

    // -------------------------------------------------------------- create and delete

    method PreflightMember(c: Id, d: Defn) returns (ok: bool)
      requires Valid()
      modifies managers.Values
      ensures Preflight(Sites(), ok) == PreflightOne(Preflight(old(Sites()), true), c, d)
    {
      if c !in managers { return false; }
      ghost var before := Sites();
      var verdict := managers[c].PreflightOnCluster(d);
      ok := verdict.Clear?;
      assert Sites() == before[c := managers[c].View()];
    }

    method PreflightAll(d: Defn) returns (ok: bool)
      requires Valid()
      modifies managers.Values
      ensures Preflight(Sites(), ok) == PreflightSome(old(Sites()), d.members, d, |d.members|)
    {
      ghost var start := Sites();
      for i := 0 to |d.members|
        invariant Preflight(Sites(), true) == PreflightSome(start, d.members, d, i)
      {
        ok := PreflightMember(d.members[i], d);
        assert Preflight(Sites(), ok) == PreflightSome(start, d.members, d, i + 1);
        if !ok {
          StaysBlocked(start, d.members, d, i + 1, |d.members|);
          return;
        }
      }
      ok := true;
    }

    method CreateMultiVnet(vid: Vid, tok: Token, d: Defn, atomic: bool, lost: set<Id>)
      requires Valid()
      modifies this, managers.Values
      ensures State() == CreateSpan(old(State()), vid, tok, d, atomic, lost)
    {
      var ok := PreflightAll(d);
      if ok { BuildMultiVnet(vid, tok, d, atomic, lost); }
    }

    method BuildMultiVnet(vid: Vid, tok: Token, d: Defn, atomic: bool, lost: set<Id>)
      requires Valid()
      modifies this, managers.Values
      ensures State() == BuildSpan(old(State()), vid, tok, d, atomic, lost)
    {
      var reports := AnnounceAndBuild(tok, d, lost);
      SettleCreate(vid, tok, d, atomic, reports);
    }

    method AnnounceAndBuild(tok: Token, d: Defn, lost: set<Id>) returns (reports: map<Id, Outcome>)
      requires Valid()
      modifies this, managers.Values
      ensures State() == Fanned(old(State()), tok, d)
      ensures reports == Reports(old(Sites()), ForAll(d.members, DoApply(d)), lost)
    {
      inflight := inflight[tok := InFlight(Elems(d.members), d.zone, d.ctrl, now + PROVISIONING_TTL)];
      reports := FanOut(ForAll(d.members, DoApply(d)), lost);
    }

    method SettleCreate(vid: Vid, tok: Token, d: Defn, atomic: bool, reports: map<Id, Outcome>)
      requires Valid() && Elems(d.members) <= reports.Keys
      modifies this, managers.Values
      ensures State() == SettleSpan(old(State()), vid, tok, d, atomic, reports)
    {
      var rollup := RollupOf(Statuses(reports));
      if atomic && rollup != AllApplied {
        assert forall c :: c in d.members ==> c in Elems(d.members);
        var _ := FanOut(map c | c in d.members :: DoTeardown(d, reports[c].created), {});
        return;
      }
      if (exists v :: v in rows && rows[v].name == d.name) || vid in rows { return; }
      rows := rows[vid := Row(d.name, d, d.members, Statuses(reports), rollup, true)];
      inflight := inflight - {tok};
    }

    method PlanPurge(vid: Vid, row: Row, unreadable: set<Id>) returns (ops: map<Id, MemberOp>)
      ensures ops == PurgeOps(State(), vid, row, unreadable)
    {
      ops := map[];
      for i := 0 to |row.members|
        invariant ops.Keys == Elems(row.members[..i])
        invariant forall c :: c in ops ==> ops[c] == PurgeOps(State(), vid, row, unreadable)[c]
      {
        var c := row.members[i];
        var zone, ctrl := SharedInfraOnCluster(vid, c, row.desired, unreadable);
        ops := ops[c := DoTeardown(row.desired, PurgeList(zone, ctrl))];
        assert row.members[..i + 1] == row.members[..i] + [c];
      }
      assert row.members[..|row.members|] == row.members;
    }

    method DeleteMultiVnet(vid: Vid, purge: bool, unreadable: set<Id>)
      requires Valid()
      modifies this, managers.Values
      ensures State() == DeleteSpan(old(State()), vid, purge, unreadable)
    {
      if vid !in rows { return; }
      if purge {
        var ops := PlanPurge(vid, rows[vid], unreadable);
        var _ := FanOut(ops, {});
      }
      rows := rows - {vid};
    }
  
    // -------------------------------------------------------------- re-apply, edit, reconcile, scan

    method FanOutAndMerge(vid: Vid, op: MemberOp, lost: set<Id>, updates: Option<(Option<string>, seq<Subnet>)>)
      requires Valid() && vid in rows
      modifies this, managers.Values
      ensures State() == FanAndMerge(old(State()), vid, op, lost, updates)
    {
      var reports := FanOut(ForAll(rows[vid].members, op), lost);
      MergeStatusWrite(vid, Statuses(reports), updates);
    }

    /** The members whose last status was not healthy, or all of them when every one was. */
    method ListTodo(row: Row) returns (todo: seq<Id>)
      ensures todo == Todo(row)
    {
      todo := [];
      for i := 0 to |row.members|
        invariant todo == Unhealthy(row.members[..i], row.status)
      {
        var c := row.members[i];
        assert row.members[..i + 1][..i] == row.members[..i];
        if !(c in row.status && Healthy(row.status[c])) { todo := todo + [c]; }
      }
      assert row.members[..|row.members|] == row.members;
      if todo == [] { todo := row.members; }
    }

    method ReapplyMultiVnet(vid: Vid, lost: set<Id>)
      requires Valid()
      modifies this, managers.Values
      ensures State() == ReapplySpan(old(State()), vid, lost)
    {
      if vid !in rows { return; }
      var row := rows[vid];
      var todo := ListTodo(row);
      var reports := FanOut(ForAll(todo, DoApply(row.desired)), lost);
      var merged := row.status + Statuses(reports);
      var shown := map c | c in row.members :: if c in merged then merged[c] else Failed;
      rows := rows[vid := row.(status := merged, rollup := RollupOf(shown))];
    }

    /** The subnet list an edit records: the kept ones, then each added network that is not there yet. */
    method RecomputeSubnets(subs: seq<Subnet>, ch: Changes) returns (res: seq<Subnet>)
      ensures res == EditedSubnets(subs, ch)
      ensures NetsOf(res) == (NetsOf(subs) - CanonSet(ch.dels)) + NetsOf(ch.adds)
    {
      var del := CanonSet(ch.dels);
      res := [];
      for i := 0 to |subs|
        invariant res == Without(subs[..i], del)
      {
        assert subs[..i + 1][..i] == subs[..i];
        if Canon(subs[i].cidr) !in del { res := res + [subs[i]]; }
      }
      assert subs[..|subs|] == subs;
      var have := NetsOf(res);
      for i := 0 to |ch.adds|
        invariant res == WithAdded(Without(subs, del), ch.adds, i) && have == NetsOf(res)
      {
        var net := Canon(ch.adds[i].cidr);
        if net !in have {
          NetsOfAppend(res, ch.adds[i]);
          res, have := res + [ch.adds[i]], have + {net};
        }
      }
      RecordAfterEdit(subs, ch);
    }

    method EditMultiVnet(vid: Vid, ch: Changes, lost: set<Id>)
      requires Valid()
      modifies this, managers.Values
      ensures State() == EditSpan(old(State()), vid, ch, lost)
    {
      if vid !in rows || (ch.alias.None? && ch.adds == [] && ch.dels == []) { return; }
      var d := rows[vid].desired;
      var subs := RecomputeSubnets(d.subnets, ch);
      FanOutAndMerge(vid, DoEdit(d.name, ch), lost, Some((ch.alias, subs)));
    }

    method ReconcileMultiVnet(vid: Vid, lost: set<Id>)
      requires Valid()
      modifies this, managers.Values
      ensures State() == ReconcileSpan(old(State()), vid, lost)
    {
      if vid in rows { FanOutAndMerge(vid, DoReconcile(rows[vid].desired), lost, None); }
    }

    method ScanMultiVnet(vid: Vid)
      requires Valid()
      modifies this, managers.Values
      ensures State() == ScanSpan(old(State()), vid)
    {
      if vid in rows { FanOutAndMerge(vid, DoLook(rows[vid].desired), {}, None); }
    }

    // -------------------------------------------------------------- members

    method PersistMemberList(vid: Vid, members: seq<Id>, status: map<Id, Status>)
      requires vid in rows
      modifies this`rows
      ensures rows == old(rows)[vid := PersistMembers(old(rows)[vid], members, status)]
      ensures rows[vid].members == rows[vid].desired.members == members && rows[vid].status == status
      ensures members != [] && Distinct(members) && status.Keys <= Elems(members) ==> Coherent(rows[vid])
      ensures rows[vid].desired.(members := old(rows)[vid].desired.members) == old(rows)[vid].desired
    {
      var row := rows[vid];
      var defn := row.desired.(members := members);
      rows := rows[vid := row.(members := members, desired := defn, status := status, rollup := RollupOf(status))];
    }

    method AddMultiVnetMember(vid: Vid, c: Id)
      requires Valid()
      modifies this, managers.Values
      ensures State() == AddMember(old(State()), vid, c)
    {
      if vid !in rows || c == "" || c in rows[vid].members || c !in managers { return; }
      var row := rows[vid];
      var out, ready := BuildMember(managers[c], row.desired);
      assert Sites() == old(Sites())[c := managers[c].View()];
      if ready && out.status.Applied? && c !in row.members {
        PersistMemberList(vid, row.members + [c], row.status[c := out.status]);
      }
    }

    /** Pre-flight one more cluster, build on it, and take back what was created if the build fails. */
    method BuildMember(m: Manager, d: Defn) returns (out: Outcome, ready: bool)
      modifies m
      ensures var (r, verdict) := PreflightOn(old(m.View()), d);
              && ready == verdict.Clear?
              && (!ready ==> m.View() == r)
              && var r1 := ApplyOn(r, d).0;
                 (ready ==> out == ApplyOn(r, d).1 &&
                            m.View() == if out.status.Applied? then r1 else Teardown(r1, d, out.created).r)
    {
      out := Outcome(Failed, []);
      var verdict := m.PreflightOnCluster(d);
      ready := verdict.Clear?;
      if !ready { return; }
      out := m.ApplyOnCluster(d);
      if !out.status.Applied? { var _ := m.TeardownCreated(d, out.created); }
    }

    method RemoveMultiVnetMember(vid: Vid, c: Id, purge: bool)
      requires Valid()
      modifies this, managers.Values
      ensures State() == RemoveMember(old(State()), vid, c, purge)
    {
      if vid !in rows || c !in rows[vid].members || |rows[vid].members| <= 1 { return; }
      var row := rows[vid];
      if purge { var _ := FanOut(map[c := DoTeardown(row.desired, [KVnet])], {}); }
      var left: seq<Id> := [];
      for i := 0 to |row.members|
        invariant left == Filter(row.members[..i], c)
      {
        assert row.members[..i + 1][..i] == row.members[..i];
        if row.members[i] != c { left := left + [row.members[i]]; }
      }
      assert row.members[..|row.members|] == row.members;
      if left == [] {
        assert rows[vid := row] == rows;
        return;
      }
      PersistMemberList(vid, left, row.status - {c});
    }

    // -------------------------------------------------------------- the scanner

    method ScanRowOnce(vid: Vid, reconcileOn: bool) returns (alerts: set<Id>, fixed: set<Id>)
      requires Valid() && vid in rows
      modifies this, managers.Values
      ensures var s := ScanRow(old(Sites()), old(rows)[vid], reconcileOn);
              && Sites() == s.sites && rows == old(rows)[vid := s.row] && alerts == s.alerts && fixed == s.fixed
              && inflight == old(inflight) && now == old(now)
    {
      var row := rows[vid];
      alerts, fixed := {}, {};
      if !row.enabled || row.members == [] {
        assert rows[vid := row] == rows;
        return;
      }
      var reports := FanOut(ForAll(row.members, DoLook(row.desired)), {});
      var live := Statuses(reports);
      if reconcileOn { fixed := ToFix(row, live); }
      alerts := RepairRow(vid, live, fixed);
    }

    method RepairRow(vid: Vid, seen: map<Id, Status>, fixed: set<Id>) returns (alerts: set<Id>)
      requires Valid() && vid in rows
      modifies this, managers.Values
      ensures var s := Repair(old(Sites()), old(rows)[vid], seen, fixed);
              && Sites() == s.sites && rows == old(rows)[vid := s.row] && alerts == s.alerts && fixed == s.fixed
              && inflight == old(inflight) && now == old(now)
    {
      var row, live := rows[vid], seen;
      if fixed != {} { live := MendAndLook(row, fixed); }
      alerts := set c | c in row.members && Off(live, c) && !Off(row.status, c);
      rows := rows[vid := row.(status := live, rollup := RollupOf(live))];
    }

    method MendAndLook(row: Row, fixed: set<Id>) returns (live: map<Id, Status>)
      requires Valid()
      modifies managers.Values
      ensures var mended := Perform(old(Sites()), map c | c in fixed :: DoReconcile(row.desired));
              var look := ForAll(row.members, DoLook(row.desired));
              Sites() == Perform(mended, look) && live == Statuses(Reports(mended, look, {}))
    {
      var _ := FanOut(map c | c in fixed :: DoReconcile(row.desired), {});
      var reports := FanOut(ForAll(row.members, DoLook(row.desired)), {});
      live := Statuses(reports);
    }

    method ScanOnce(order: seq<Vid>, reconcileOn: bool)
      requires Valid()
      modifies this, managers.Values
      ensures State() == ScanSome(old(State()), order, reconcileOn, |order|)
    {
      for i := 0 to |order|
        invariant State() == ScanSome(old(State()), order, reconcileOn, i)
      {
        if order[i] in rows { var _, _ := ScanRowOnce(order[i], reconcileOn); }
      }
    }
  }

  lemma {:induction false} StaysBlocked(sites: map<Id, Remote>, members: seq<Id>, d: Defn, i: nat, n: nat)
    requires i <= n <= |members| && !PreflightSome(sites, members, d, i).ok
    ensures PreflightSome(sites, members, d, n) == PreflightSome(sites, members, d, i)
  {
    if i < n { StaysBlocked(sites, members, d, i, n - 1); }
  }
}
