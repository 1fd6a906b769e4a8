/** Safety over whole runs: every recorded span stays built, with its definition, on every recorded member, and
    no two vnets of a cluster ever share a VNI. */
module SdnInvariant {
  import opened Wrappers
  import opened SdnTypes
  import opened SdnRemote
  import opened SdnBuild
  import opened SdnRollback
  import opened SdnEdit
  import opened SdnReconcile
  import opened SdnWorld

  ghost predicate RowSound(row: Row) {
    && ValidDefn(row.desired) && row.name == row.desired.name
    && row.members != [] && Distinct(row.members) && row.desired.members == row.members
  }

  ghost predicate RowsSound(rows: map<Vid, Row>) {
    && (forall v :: v in rows ==> RowSound(rows[v]))
    && (forall u, v :: u in rows && v in rows && u != v ==> rows[u].name != rows[v].name)
  }

  /** Every span is built on each of its members. */
  ghost predicate SpansBuilt(sites: map<Id, Remote>, rows: map<Vid, Row>) {
    forall v, c :: v in rows && c in rows[v].members ==> c in sites && Built(sites[c].cl, rows[v].desired)
  }

  ghost predicate Inv(w: World) { RowsSound(w.rows) && SpansBuilt(w.sites, w.rows) }

  /** No cluster whose VNIs were pairwise distinct lost that, whatever the VNIs of the others. */
  ghost predicate VnisKept(a: map<Id, Remote>, b: map<Id, Remote>) {
    a.Keys == b.Keys && forall c :: c in a && DistinctVnis(a[c].cl) ==> DistinctVnis(b[c].cl)
  }

  lemma VnisChain(a: map<Id, Remote>, b: map<Id, Remote>, c: map<Id, Remote>)
    requires VnisKept(a, b) && VnisKept(b, c)
    ensures VnisKept(a, c)
  {
  }

  // ---------------------------------------------------------------- one routine on one cluster

  /** The routine deletes nothing the span uses. */
  predicate Spares(op: MemberOp, other: Defn) {
    op.DoTeardown? ==>
      && (KVnet in op.created ==> op.d.name != other.name)
      && (KZone in op.created ==> op.d.zone != other.zone)
      && (KController in op.created ==> op.d.ctrl != other.ctrl)
  }

  lemma DoKeepsBuilt(r: Remote, op: MemberOp, other: Defn)
    requires Built(r.cl, other) && Spares(op, other)
    ensures Built(Do(r, op).cl, other)
  {
    match op
    case DoApply(d) => ApplyKeepsBuilt(r, d, other);
    case DoReconcile(d) => ReconcileKeepsBuilt(r, d, other);
    case DoEdit(name, ch) => EditFrame(r, name, ch);
    case DoTeardown(d, created) => TeardownShrinks(r, d, created);
    case DoLook(_) =>
  }

  /** The routine creates no vnet, or creates one whose VNI is free. */
  ghost predicate VniFree(r: Remote, op: MemberOp) {
    match op
    case DoApply(d) => d.name in r.cl.vnets || !Collides(r.cl, d)
    case DoReconcile(d) => d.name in r.cl.vnets || !Collides(r.cl, d)
    case _ => true
  }

  lemma DoKeepsVnis(r: Remote, op: MemberOp)
    requires VniFree(r, op)
    ensures DistinctVnis(r.cl) ==> DistinctVnis(Do(r, op).cl)
  {
    if DistinctVnis(r.cl) {
      match op
      case DoApply(d) => ApplyKeepsVnis(r, d);
      case DoReconcile(d) => ReconcileKeepsVnis(r, d);
      case DoEdit(name, ch) => EditFrame(r, name, ch);
      case DoTeardown(d, created) => TeardownShrinks(r, d, created);
      case DoLook(_) =>
    }
  }

  // ---------------------------------------------------------------- fan-outs

  lemma PerformKeepsSpans(sites: map<Id, Remote>, ops: map<Id, MemberOp>, rows: map<Vid, Row>)
    requires SpansBuilt(sites, rows)
    requires forall v, c :: v in rows && c in rows[v].members && c in ops ==> Spares(ops[c], rows[v].desired)
    ensures SpansBuilt(Perform(sites, ops), rows)
  {
    forall v, c | v in rows && c in rows[v].members
      ensures c in sites && Built(Perform(sites, ops)[c].cl, rows[v].desired)
    {
      if c in ops { DoKeepsBuilt(sites[c], ops[c], rows[v].desired); }
    }
  }

  lemma PerformKeepsVnis(sites: map<Id, Remote>, ops: map<Id, MemberOp>)
    requires forall c :: c in sites && c in ops ==> VniFree(sites[c], ops[c])
    ensures VnisKept(sites, Perform(sites, ops))
  {
    forall c | c in sites && DistinctVnis(sites[c].cl) ensures DistinctVnis(Perform(sites, ops)[c].cl) {
      if c in ops { DoKeepsVnis(sites[c], ops[c]); }
    }
  }

  /** Same clusters, same configurations; only the conversation moved on. */
  ghost predicate SameClusters(a: map<Id, Remote>, b: map<Id, Remote>) {
    a.Keys == b.Keys && forall c :: c in a ==> a[c].cl == b[c].cl
  }

  lemma {:induction false} PreflightOnlyReads(sites: map<Id, Remote>, members: seq<Id>, d: Defn, n: nat)
    requires n <= |members|
    ensures var p := PreflightSome(sites, members, d, n);
            && SameClusters(sites, p.sites)
            && (p.ok ==> forall i :: 0 <= i < n ==> members[i] in sites && !Collides(sites[members[i]].cl, d))
  {
    if n > 0 { PreflightOnlyReads(sites, members, d, n - 1); }
  }

  // ---------------------------------------------------------------- steps

  lemma RollupMeaning(st: map<Id, Status>)
    ensures RollupOf(st) == AllApplied <==> st != map[] && forall c :: c in st ==> Healthy(st[c])
  {
  }

  /** Building on every member and tearing down what was reported as created: no recorded span loses an object. */
  lemma RollbackKeepsInv(sites: map<Id, Remote>, rows: map<Vid, Row>, d: Defn, lost: set<Id>)
    requires SpansBuilt(sites, rows)
    requires forall c :: c in d.members && c in sites ==> !Collides(sites[c].cl, d)
    ensures var ops := ForAll(d.members, DoApply(d));
            var reports := Reports(sites, ops, lost);
            var torn := Perform(Perform(sites, ops), map c | c in d.members :: DoTeardown(d, reports[c].created));
            SpansBuilt(torn, rows) && VnisKept(sites, torn)
  {
    var ops := ForAll(d.members, DoApply(d));
    var reports := Reports(sites, ops, lost);
    var tear := map c | c in d.members :: DoTeardown(d, reports[c].created);
    PerformKeepsSpans(sites, ops, rows);
    PerformKeepsVnis(sites, ops);
    forall v, c | v in rows && c in rows[v].members && c in tear ensures Spares(tear[c], rows[v].desired) {
      ApplyGrows(sites[c], d);
    }
    PerformKeepsSpans(Perform(sites, ops), tear, rows);
    PerformKeepsVnis(Perform(sites, ops), tear);
    VnisChain(sites, Perform(sites, ops), Perform(Perform(sites, ops), tear));
  }

  /** A fan-out whose reports are all healthy built the span on every member. */
  lemma HealthyIsBuilt(sites: map<Id, Remote>, d: Defn, lost: set<Id>)
    requires forall c :: c in d.members ==> c in sites && !Collides(sites[c].cl, d)
    requires var st := Statuses(Reports(sites, ForAll(d.members, DoApply(d)), lost));
             forall c :: c in st ==> Healthy(st[c])
    ensures forall c :: c in d.members ==> Built(Perform(sites, ForAll(d.members, DoApply(d)))[c].cl, d)
  {
    var ops := ForAll(d.members, DoApply(d));
    var st := Statuses(Reports(sites, ops, lost));
    forall c | c in d.members ensures Built(Perform(sites, ops)[c].cl, d) {
      assert c in st && Healthy(st[c]);
      AppliedIsBuilt(sites[c], d);
    }
  }

  lemma InsertKeepsInv(sites: map<Id, Remote>, rows: map<Vid, Row>, vid: Vid, row: Row)
    requires RowsSound(rows) && SpansBuilt(sites, rows) && vid !in rows && RowSound(row) && !NameTaken(rows, row.name)
    requires forall c :: c in row.members ==> c in sites && Built(sites[c].cl, row.desired)
    ensures RowsSound(rows[vid := row]) && SpansBuilt(sites, rows[vid := row])
  {
  }

  lemma CreateKeepsInv(w: World, vid: Vid, tok: Token, d: Defn, lost: set<Id>)
    requires Inv(w) && ValidDefn(d)
    ensures var after := CreateSpan(w, vid, tok, d, true, lost); Inv(after) && VnisKept(w.sites, after.sites)
  {
    var p := PreflightSome(w.sites, d.members, d, |d.members|);
    PreflightOnlyReads(w.sites, d.members, d, |d.members|);
    assert SpansBuilt(p.sites, w.rows) && VnisKept(w.sites, p.sites);
    if p.ok {
      assert forall c :: c in d.members ==> c in p.sites && !Collides(p.sites[c].cl, d);
      CreateAfterPreflight(w.(sites := p.sites), vid, tok, d, lost);
      VnisChain(w.sites, p.sites, CreateSpan(w, vid, tok, d, true, lost).sites);
    }
  }

  lemma CreateAfterPreflight(w: World, vid: Vid, tok: Token, d: Defn, lost: set<Id>)
    requires Inv(w) && ValidDefn(d) && forall c :: c in d.members ==> c in w.sites && !Collides(w.sites[c].cl, d)
    ensures var after := BuildSpan(w, vid, tok, d, true, lost); Inv(after) && VnisKept(w.sites, after.sites)
  {
    var ops := ForAll(d.members, DoApply(d));
    var st := Statuses(Reports(w.sites, ops, lost));
    RollupMeaning(st);
    if RollupOf(st) != AllApplied {
      RollbackKeepsInv(w.sites, w.rows, d, lost);
    } else {
      PerformKeepsSpans(w.sites, ops, w.rows);
      PerformKeepsVnis(w.sites, ops);
      if !NameTaken(w.rows, d.name) && vid !in w.rows {
        HealthyIsBuilt(w.sites, d, lost);
        InsertKeepsInv(Perform(w.sites, ops), w.rows, vid, NewRow(d, st));
      }
    }
  }

  /** Changing a row's status, alias or subnets changes nothing the invariant speaks of. */
  ghost predicate SameSpan(a: Row, b: Row) {
    && b.name == a.name && b.members == a.members && b.desired.members == a.desired.members
    && b.desired.(alias := "", subnets := []) == a.desired.(alias := "", subnets := [])
  }

  lemma UpdateKeepsInv(sites: map<Id, Remote>, rows: map<Vid, Row>, vid: Vid, row: Row)
    requires RowsSound(rows) && SpansBuilt(sites, rows) && vid in rows && SameSpan(rows[vid], row)
    ensures RowsSound(rows[vid := row]) && SpansBuilt(sites, rows[vid := row])
  {
    var a, b := rows[vid].desired, row.desired;
    assert a.(alias := "", subnets := []).name == a.name && b.(alias := "", subnets := []).name == b.name;
    assert a.(alias := "", subnets := []).zone == a.zone && b.(alias := "", subnets := []).zone == b.zone;
    assert a.(alias := "", subnets := []).ctrl == a.ctrl && b.(alias := "", subnets := []).ctrl == b.ctrl;
    assert a.(alias := "", subnets := []).vni == a.vni && b.(alias := "", subnets := []).vni == b.vni;
    assert a.(alias := "", subnets := []).asn == a.asn && b.(alias := "", subnets := []).asn == b.asn;
    assert a.(alias := "", subnets := []).vrf == a.vrf && b.(alias := "", subnets := []).vrf == b.vrf;
  }

  /** Building, reconciling, editing or scanning a recorded span. */
  lemma FanOutKeepsInv(w: World, vid: Vid, members: seq<Id>, op: MemberOp)
    requires Inv(w) && vid in w.rows && Elems(members) <= Elems(w.rows[vid].members)
    requires match op case DoApply(d) => d == w.rows[vid].desired case DoReconcile(d) => d == w.rows[vid].desired
                      case DoTeardown(_, _) => false case _ => true
    ensures var sites := Perform(w.sites, ForAll(members, op)); SpansBuilt(sites, w.rows) && VnisKept(w.sites, sites)
  {
    var ops := ForAll(members, op);
    PerformKeepsSpans(w.sites, ops, w.rows);
    forall c | c in w.sites && c in ops ensures VniFree(w.sites[c], ops[c]) {
      assert c in Elems(members);
      assert Built(w.sites[c].cl, w.rows[vid].desired);
    }
    PerformKeepsVnis(w.sites, ops);
  }

  lemma MergeKeepsSpan(row: Row, latest: map<Id, Status>, updates: Option<(Option<string>, seq<Subnet>)>)
    requires RowSound(row)
    ensures SameSpan(row, MergeWrite(row, latest, updates))
  {
  }

  lemma FanAndMergeKeepsInv(w: World, vid: Vid, op: MemberOp, lost: set<Id>,
      updates: Option<(Option<string>, seq<Subnet>)>)
    requires Inv(w) && vid in w.rows
    requires match op case DoApply(d) => d == w.rows[vid].desired case DoReconcile(d) => d == w.rows[vid].desired
                      case DoTeardown(_, _) => false case _ => true
    ensures var after := FanAndMerge(w, vid, op, lost, updates); Inv(after) && VnisKept(w.sites, after.sites)
  {
    FanOutKeepsInv(w, vid, w.rows[vid].members, op);
    var ops := ForAll(w.rows[vid].members, op);
    var st := Statuses(Reports(w.sites, ops, lost));
    MergeKeepsSpan(w.rows[vid], st, updates);
    UpdateKeepsInv(Perform(w.sites, ops), w.rows, vid, MergeWrite(w.rows[vid], st, updates));
  }

  lemma {:induction false} UnhealthyAreMembers(members: seq<Id>, st: map<Id, Status>)
    ensures Elems(Unhealthy(members, st)) <= Elems(members)
  {
    if members != [] {
      UnhealthyAreMembers(members[..|members| - 1], st);
      forall c | c in Unhealthy(members, st) ensures c in members {
        if c in Unhealthy(members[..|members| - 1], st) { assert c in Elems(members[..|members| - 1]); }
      }
    }
  }

  lemma ReapplyKeepsInv(w: World, vid: Vid, lost: set<Id>)
    requires Inv(w)
    ensures Inv(ReapplySpan(w, vid, lost)) && VnisKept(w.sites, ReapplySpan(w, vid, lost).sites)
  {
    if vid in w.rows {
      var row := w.rows[vid];
      UnhealthyAreMembers(row.members, row.status);
      FanOutKeepsInv(w, vid, Todo(row), DoApply(row.desired));
      UpdateKeepsInv(Perform(w.sites, ForAll(Todo(row), DoApply(row.desired))), w.rows, vid,
          ReapplySpan(w, vid, lost).rows[vid]);
    }
  }

  /** A purge spares every other recorded span: names differ, and shared zones and controllers are kept. */
  lemma PurgeSpares(w: World, vid: Vid, unreadable: set<Id>, v: Vid, c: Id)
    requires Inv(w) && vid in w.rows && v in w.rows && v != vid && c in w.rows[v].members && c in w.rows[vid].members
    ensures var ops := PurgeOps(w, vid, w.rows[vid], unreadable); c in ops && Spares(ops[c], w.rows[v].desired)
  {
    var d, other := w.rows[vid].desired, w.rows[v].desired;
    if other.zone == d.zone { assert ZoneRecorded(w.rows, vid, c, d.zone); }
    if other.ctrl == d.ctrl { assert CtrlRecorded(w.rows, vid, c, d.ctrl); }
  }

  lemma DeleteKeepsInv(w: World, vid: Vid, purge: bool, unreadable: set<Id>)
    requires Inv(w)
    ensures var after := DeleteSpan(w, vid, purge, unreadable); Inv(after) && VnisKept(w.sites, after.sites)
  {
    if vid in w.rows && purge {
      var ops := PurgeOps(w, vid, w.rows[vid], unreadable);
      var rest := w.rows - {vid};
      forall v, c | v in rest && c in rest[v].members && c in ops ensures Spares(ops[c], rest[v].desired) {
        PurgeSpares(w, vid, unreadable, v, c);
      }
      PerformKeepsSpans(w.sites, ops, rest);
      PerformKeepsVnis(w.sites, ops);
    }
  }

  /** One cluster replaced by another in which every span recorded there is still built. */
  lemma ReplaceKeepsInv(w: World, c: Id, r: Remote)
    requires Inv(w) && c in w.sites && (DistinctVnis(w.sites[c].cl) ==> DistinctVnis(r.cl))
    requires forall v :: v in w.rows && c in w.rows[v].members ==> Built(r.cl, w.rows[v].desired)
    ensures Inv(w.(sites := w.sites[c := r])) && VnisKept(w.sites, w.sites[c := r])
  {
  }

  /** The rollback of an addition that failed spares what was there before it. */
  lemma UndoneAddKeepsInv(w: World, c: Id, r: Remote, d: Defn)
    requires Inv(w) && c in w.sites && w.sites[c].cl == r.cl && !Collides(r.cl, d)
    ensures var (r1, out) := ApplyOn(r, d);
            var sites := w.sites[c := Teardown(r1, d, out.created).r];
            Inv(w.(sites := sites)) && VnisKept(w.sites, sites)
  {
    var (r1, out) := ApplyOn(r, d);
    var t := Teardown(r1, d, out.created);
    if DistinctVnis(r.cl) { ApplyKeepsVnis(r, d); }
    TeardownShrinks(r1, d, out.created);
    forall v | v in w.rows && c in w.rows[v].members ensures Built(t.r.cl, w.rows[v].desired) {
      ApplyKeepsBuilt(r, d, w.rows[v].desired);
      ApplyGrows(r, d);
      DoKeepsBuilt(r1, DoTeardown(d, out.created), w.rows[v].desired);
    }
    ReplaceKeepsInv(w, c, t.r);
  }

  lemma AppliedAddKeepsInv(w: World, c: Id, r: Remote, d: Defn)
    requires Inv(w) && c in w.sites && w.sites[c].cl == r.cl && !Collides(r.cl, d)
    ensures var sites := w.sites[c := ApplyOn(r, d).0]; Inv(w.(sites := sites)) && VnisKept(w.sites, sites)
  {
    var r1 := ApplyOn(r, d).0;
    if DistinctVnis(r.cl) { ApplyKeepsVnis(r, d); }
    forall v | v in w.rows && c in w.rows[v].members ensures Built(r1.cl, w.rows[v].desired) {
      ApplyKeepsBuilt(r, d, w.rows[v].desired);
    }
    ReplaceKeepsInv(w, c, r1);
  }

  lemma PreflightKeepsCluster(r: Remote, d: Defn)
    ensures PreflightOn(r, d).0.cl == r.cl && (PreflightOn(r, d).1.Clear? ==> !Collides(r.cl, d))
  {
  }

  lemma AddKeepsInv(w: World, vid: Vid, c: Id)
    requires Inv(w)
    ensures Inv(AddMember(w, vid, c)) && VnisKept(w.sites, AddMember(w, vid, c).sites)
  {
    if vid in w.rows && c != "" && c !in w.rows[vid].members && c in w.sites {
      var d := w.rows[vid].desired;
      var (r, verdict) := PreflightOn(w.sites[c], d);
      PreflightKeepsCluster(w.sites[c], d);
      if verdict.Clear? {
        var (r1, out) := ApplyOn(r, d);
        if !out.status.Applied? {
          UndoneAddKeepsInv(w, c, r, d);
        } else {
          AppliedAddKeepsInv(w, c, r, d);
          AppliedIsBuilt(r, d);
          CommitAddKeepsInv(w.sites[c := r1], w.rows, vid, c, out.status);
        }
      } else {
        ReplaceKeepsInv(w, c, r);
      }
    }
  }

  lemma CommitAddKeepsInv(sites: map<Id, Remote>, rows: map<Vid, Row>, vid: Vid, c: Id, st: Status)
    requires RowsSound(rows) && SpansBuilt(sites, rows) && vid in rows && c !in rows[vid].members
    requires c in sites && Built(sites[c].cl, rows[vid].desired)
    ensures var rows' := rows[vid := AddCommit(rows[vid], c, st)]; RowsSound(rows') && SpansBuilt(sites, rows')
  {
    var row := AddCommit(rows[vid], c, st);
    assert forall i :: 0 <= i < |rows[vid].members| ==> rows[vid].members[i] in rows[vid].members;
    assert RowSound(row);
  }

  lemma {:induction false} FilterMeaning(s: seq<Id>, c: Id)
    ensures Elems(Filter(s, c)) == Elems(s) - {c}
    ensures Distinct(s) ==> Distinct(Filter(s, c))
  {
    if s != [] {
      var init, last := s[..|s| - 1], s[|s| - 1];
      assert s == init + [last];
      FilterMeaning(init, c);
      assert Elems(s) == Elems(init) + {last};
      var f := Filter(init, c);
      assert Elems(f + [last]) == Elems(f) + {last};
      if Distinct(s) && last != c {
        assert forall i :: 0 <= i < |f| ==> f[i] in Elems(f);
        assert last !in Elems(init) by {
          assert forall i :: 0 <= i < |init| ==> init[i] == s[i];
          assert s[|init|] == last;
        }
      }
    }
  }

  lemma CommitRemoveKeepsInv(sites: map<Id, Remote>, rows: map<Vid, Row>, vid: Vid, c: Id)
    requires RowsSound(rows) && vid in rows
    requires forall v, m :: v in rows && m in rows[v].members && (v != vid || m != c) ==>
               m in sites && Built(sites[m].cl, rows[v].desired)
    requires exists m :: m in rows[vid].members && m != c
    ensures var rows' := rows[vid := RemoveCommit(rows[vid], c)]; RowsSound(rows') && SpansBuilt(sites, rows')
  {
    var row := rows[vid];
    FilterMeaning(row.members, c);
    var f := Filter(row.members, c);
    var m :| m in row.members && m != c;
    assert m in Elems(f);
    assert RowSound(RemoveCommit(row, c));
    forall x | x in f ensures x in row.members && x != c { assert x in Elems(f); }
  }

  lemma RemoveKeepsInv(w: World, vid: Vid, c: Id, purge: bool)
    requires Inv(w)
    ensures Inv(RemoveMember(w, vid, c, purge)) && VnisKept(w.sites, RemoveMember(w, vid, c, purge).sites)
  {
    if vid in w.rows && c in w.rows[vid].members && |w.rows[vid].members| > 1 {
      var row := w.rows[vid];
      var ops := map[c := DoTeardown(row.desired, [KVnet])];
      PerformKeepsVnis(w.sites, ops);
      forall v, m | v in w.rows && m in w.rows[v].members && (v != vid || m != c)
        ensures Built(Perform(w.sites, ops)[m].cl, w.rows[v].desired)
      {
        if m == c { DoKeepsBuilt(w.sites[m], ops[m], w.rows[v].desired); }
      }
      assert row.members[0] != row.members[1];
      var other := if row.members[0] == c then row.members[1] else row.members[0];
      assert other in row.members && other != c;
      CommitRemoveKeepsInv(if purge then Perform(w.sites, ops) else w.sites, w.rows, vid, c);
    }
  }

  lemma RepairKeepsInv(w: World, vid: Vid, live: map<Id, Status>, fix: set<Id>)
    requires Inv(w) && vid in w.rows && fix <= Elems(w.rows[vid].members)
    ensures var s := Repair(w.sites, w.rows[vid], live, fix);
            SpansBuilt(s.sites, w.rows) && VnisKept(w.sites, s.sites) && SameSpan(w.rows[vid], s.row)
  {
    var row := w.rows[vid];
    if fix != {} {
      var mend := map c | c in fix :: DoReconcile(row.desired);
      PerformKeepsSpans(w.sites, mend, w.rows);
      forall c | c in w.sites && c in mend ensures VniFree(w.sites[c], mend[c]) {
        assert c in Elems(row.members);
        assert Built(w.sites[c].cl, row.desired);
      }
      PerformKeepsVnis(w.sites, mend);
      var mended := Perform(w.sites, mend);
      FanOutKeepsInv(w.(sites := mended), vid, row.members, DoLook(row.desired));
      VnisChain(w.sites, mended, Perform(mended, ForAll(row.members, DoLook(row.desired))));
    }
  }

  lemma ScanOneKeepsInv(w: World, vid: Vid, reconcileOn: bool)
    requires Inv(w)
    ensures Inv(ScanOne(w, vid, reconcileOn)) && VnisKept(w.sites, ScanOne(w, vid, reconcileOn).sites)
  {
    if vid in w.rows && w.rows[vid].enabled {
      var row := w.rows[vid];
      var look := ForAll(row.members, DoLook(row.desired));
      FanOutKeepsInv(w, vid, row.members, DoLook(row.desired));
      var live := Statuses(Reports(w.sites, look, {}));
      var fix := if reconcileOn then ToFix(row, live) else {};
      RepairKeepsInv(w.(sites := Perform(w.sites, look)), vid, live, fix);
      var s := Repair(Perform(w.sites, look), row, live, fix);
      UpdateKeepsInv(s.sites, w.rows, vid, s.row);
      VnisChain(w.sites, Perform(w.sites, look), s.sites);
    } else if vid in w.rows {
      assert w.rows[vid := w.rows[vid]] == w.rows;
    }
  }

  lemma {:induction false} ScanKeepsInv(w: World, order: seq<Vid>, reconcileOn: bool, n: nat)
    requires n <= |order| && Inv(w)
    ensures Inv(ScanSome(w, order, reconcileOn, n)) && VnisKept(w.sites, ScanSome(w, order, reconcileOn, n).sites)
  {
    if n > 0 {
      ScanKeepsInv(w, order, reconcileOn, n - 1);
      var before := ScanSome(w, order, reconcileOn, n - 1);
      ScanOneKeepsInv(before, order[n - 1], reconcileOn);
      VnisChain(w.sites, before.sites, ScanSome(w, order, reconcileOn, n).sites);
    }
  }

  // ---------------------------------------------------------------- runs

  /** A create validates its definition first; the default is atomic. */
  ghost predicate Admissible(s: Step) { s.SCreate? ==> ValidDefn(s.d) && s.atomic }

  lemma StepKeepsInv(w: World, s: Step)
    requires Inv(w) && Admissible(s)
    ensures Inv(Next(w, s)) && VnisKept(w.sites, Next(w, s).sites)
  {
    match s
    case SCreate(vid, tok, d, _, lost) => CreateKeepsInv(w, vid, tok, d, lost);
    case SReapply(vid, lost) => ReapplyKeepsInv(w, vid, lost);
    case SDelete(vid, purge, unreadable) => DeleteKeepsInv(w, vid, purge, unreadable);
    case SEdit(vid, ch, lost) =>
      if vid in w.rows {
        var d := w.rows[vid].desired;
        FanAndMergeKeepsInv(w, vid, DoEdit(d.name, ch), lost, Some((ch.alias, EditedSubnets(d.subnets, ch))));
      }
    case SReconcile(vid, lost) =>
      if vid in w.rows { FanAndMergeKeepsInv(w, vid, DoReconcile(w.rows[vid].desired), lost, None); }
    case SScan(vid) => if vid in w.rows { FanAndMergeKeepsInv(w, vid, DoLook(w.rows[vid].desired), {}, None); }
    case SAdd(vid, c) => AddKeepsInv(w, vid, c);
    case SRemove(vid, c, purge) => RemoveKeepsInv(w, vid, c, purge);
    case SPass(order, reconcileOn) => ScanKeepsInv(w, order, reconcileOn, |order|);
    case SWait(_) =>
  }

  lemma {:induction false} RunKeepsInv(w: World, steps: seq<Step>)
    requires Inv(w) && forall s :: s in steps ==> Admissible(s)
    ensures Inv(Run(w, steps)) && VnisKept(w.sites, Run(w, steps).sites)
  {
    if steps != [] {
      var before := steps[..|steps| - 1];
      assert forall s :: s in before ==> s in steps;
      RunKeepsInv(w, before);
      StepKeepsInv(Run(w, before), steps[|steps| - 1]);
      VnisChain(w.sites, Run(w, before).sites, Run(w, steps).sites);
    }
  }

  /** From an empty table and any clusters, after every run of handlers, with any write, listing or reload failing
      at any point and any report lost: each recorded span has its controller, zone and vnet, with its own
      definition, on each recorded member; and each cluster that started with distinct VNIs still has them. */
  lemma InfrastructureInvariant(w: World, steps: seq<Step>)
    requires w.rows == map[] && forall s :: s in steps ==> Admissible(s)
    ensures RowsSound(Run(w, steps).rows) && SpansBuilt(Run(w, steps).sites, Run(w, steps).rows)
    ensures Run(w, steps).sites.Keys == w.sites.Keys
    ensures forall c :: c in w.sites && DistinctVnis(w.sites[c].cl) ==> DistinctVnis(Run(w, steps).sites[c].cl)
  {
    RunKeepsInv(w, steps);
  }
}
