/** Many clusters, the table of spans and the register of creates in flight, and what each handler does to them
    when it runs to its end before the next one starts. */
module SdnWorld {
  import opened Wrappers
  import opened SdnTypes
  import opened SdnRemote
  import opened SdnEdit

  type Vid = string
  type Token = nat

  datatype Rollup = Pending | AllApplied | Partial | AllFailed

  /** A database row. `members` is the member_clusters column, `desired` the desired_state column. */
  datatype Row = Row(name: Id, desired: Defn, members: seq<Id>, status: map<Id, Status>, rollup: Rollup, enabled: bool)

  /** A create that has been announced but not recorded. */
  datatype InFlight = InFlight(clusters: set<Id>, zone: Id, ctrl: Id, expires: int)

  datatype World = World(sites: map<Id, Remote>, rows: map<Vid, Row>, inflight: map<Token, InFlight>, now: int)

  const PROVISIONING_TTL := 240

  function Elems<T>(s: seq<T>): set<T> { set x | x in s }

  // ---------------------------------------------------------------- status

  predicate Healthy(s: Status) { s.Applied? || s.InSync? }

  function RollupOf(status: map<Id, Status>): Rollup {
    if status == map[] then Pending
    else if forall c :: c in status ==> Healthy(status[c]) then AllApplied
    else if exists c :: c in status && status[c].Drift? then Partial
    else if forall c :: c in status ==> !Healthy(status[c]) then AllFailed
    else Partial
  }

  // ---------------------------------------------------------------- fan-out

  /** One routine on one member. */
  datatype MemberOp =
    | DoApply(d: Defn)
    | DoReconcile(d: Defn)
    | DoEdit(name: Id, ch: Changes)
    | DoTeardown(d: Defn, created: seq<Kind>)
    | DoLook(d: Defn)

  function Do(r: Remote, op: MemberOp): Remote {
    match op
    case DoApply(d) => ApplyOn(r, d).0
    case DoReconcile(d) => ReconcileOn(r, d).0
    case DoEdit(name, ch) => EditOn(r, name, ch).0
    case DoTeardown(d, created) => Teardown(r, d, created).r
    case DoLook(d) => LiveStatusOn(r, d).0
  }

  function ReportOf(r: Remote, op: MemberOp): Outcome {
    match op
    case DoApply(d) => ApplyOn(r, d).1
    case DoReconcile(d) => ReconcileOn(r, d).1
    case DoEdit(name, ch) => Outcome(EditOn(r, name, ch).1, [])
    case DoTeardown(d, created) => Outcome(Applied, Teardown(r, d, created).deleted)
    case DoLook(d) => Outcome(LiveStatusOn(r, d).1, [])
  }

  /** Each member's routine runs against its own cluster only, so the order of a fan-out does not matter. */
  function Perform(sites: map<Id, Remote>, ops: map<Id, MemberOp>): (after: map<Id, Remote>)
    ensures after.Keys == sites.Keys
  {
    map c | c in sites :: if c in ops then Do(sites[c], ops[c]) else sites[c]
  }

  function ForAll(members: seq<Id>, op: MemberOp): map<Id, MemberOp> { map c | c in members :: op }

  /** The reports of a fan-out: an unknown cluster is not_found, a member without a report counts as failed. */
  function Reports(sites: map<Id, Remote>, ops: map<Id, MemberOp>, lost: set<Id>): map<Id, Outcome> {
    map c | c in ops ::
      if c in lost then Outcome(Failed, [])
      else if c in sites then ReportOf(sites[c], ops[c])
      else Outcome(NotFound, [])
  }

  function Statuses(reports: map<Id, Outcome>): map<Id, Status> { map c | c in reports :: reports[c].status }

  // ---------------------------------------------------------------- pre-flight

  datatype Preflight = Preflight(sites: map<Id, Remote>, ok: bool)

  ghost function PreflightOne(p: Preflight, c: Id, d: Defn): Preflight {
    if !p.ok then p
    else if c !in p.sites then p.(ok := false)
    else var (r, v) := PreflightOn(p.sites[c], d); Preflight(p.sites[c := r], v.Clear?)
  }

  /** The first `n` members, stopping at the first that is unreachable, unreadable or in conflict. */
  ghost function PreflightSome(sites: map<Id, Remote>, members: seq<Id>, d: Defn, n: nat): Preflight
    requires n <= |members|
  {
    if n == 0 then Preflight(sites, true) else PreflightOne(PreflightSome(sites, members, d, n - 1), members[n - 1], d)
  }

  // ---------------------------------------------------------------- locked sections

  /** Merge fresh results into the stored status, for the members the row has now. */
  function Merged(row: Row, latest: map<Id, Status>): map<Id, Status> {
    map c | c in row.members && (c in latest || c in row.status) :: if c in latest then latest[c] else row.status[c]
  }

  /** The locked section of edit, reconcile and scan; `updates` (edit only) is the new alias and subnet list. */
  function MergeWrite(row: Row, latest: map<Id, Status>, updates: Option<(Option<string>, seq<Subnet>)>): Row {
    var st := Merged(row, latest);
    var row1 := row.(status := st, rollup := RollupOf(st));
    match updates
    case None => row1
    case Some((alias, subs)) =>
      row1.(desired := row.desired.(alias := if alias.Some? then alias.value else row.desired.alias,
                                    subnets := subs, members := row.members))
  }

  /** The three copies of the member list agree: the column, the stored definition and the statuses. */
  ghost predicate Coherent(row: Row) {
    && row.members == row.desired.members && row.members != [] && Distinct(row.members)
    && row.status.Keys <= Elems(row.members)
  }

  function PersistMembers(row: Row, members: seq<Id>, st: map<Id, Status>): Row {
    row.(members := members, desired := row.desired.(members := members), status := st, rollup := RollupOf(st))
  }

  /** The locked section of a member addition: a cluster that is already a member is left alone. */
  function AddCommit(row: Row, c: Id, st: Status): Row {
    if c in row.members then row else PersistMembers(row, row.members + [c], row.status[c := st])
  }

  function Filter(s: seq<Id>, c: Id): seq<Id> {
    if s == [] then [] else Filter(s[..|s| - 1], c) + if s[|s| - 1] == c then [] else [s[|s| - 1]]
  }

  /** The locked section of a member removal: the last member is never removed. */
  function RemoveCommit(row: Row, c: Id): Row {
    var ms := Filter(row.members, c);
    if ms == [] then row else PersistMembers(row, ms, row.status - {c})
  }

  // ---------------------------------------------------------------- shared infrastructure

  /** Another recorded span on cluster `c` names the zone (the controller). */
  ghost predicate ZoneRecorded(rows: map<Vid, Row>, vid: Vid, c: Id, zone: Id) {
    exists v :: v in rows && v != vid && c in rows[v].members && rows[v].desired.zone == zone
  }

  ghost predicate CtrlRecorded(rows: map<Vid, Row>, vid: Vid, c: Id, ctrl: Id) {
    exists v :: v in rows && v != vid && c in rows[v].members && rows[v].desired.ctrl == ctrl
  }

  /** An unexpired create in flight on cluster `c` names the zone (the controller). */
  ghost predicate ZoneInFlight(inflight: map<Token, InFlight>, now: int, c: Id, zone: Id) {
    exists t :: t in inflight && inflight[t].expires >= now && c in inflight[t].clusters && inflight[t].zone == zone
  }

  ghost predicate CtrlInFlight(inflight: map<Token, InFlight>, now: int, c: Id, ctrl: Id) {
    exists t :: t in inflight && inflight[t].expires >= now && c in inflight[t].clusters && inflight[t].ctrl == ctrl
  }

  /** (zone shared, controller shared) on cluster `c`; where the table cannot be read both count as shared. */
  ghost function SharedInfra(w: World, vid: Vid, c: Id, d: Defn, unreadable: set<Id>): (bool, bool) {
    if d.zone == "" && d.ctrl == "" then (false, false)
    else if c in unreadable then (true, true)
    else
      (d.zone != "" && (ZoneRecorded(w.rows, vid, c, d.zone) || ZoneInFlight(w.inflight, w.now, c, d.zone)),
       d.ctrl != "" && (CtrlRecorded(w.rows, vid, c, d.ctrl) || CtrlInFlight(w.inflight, w.now, c, d.ctrl)))
  }

  // ---------------------------------------------------------------- handlers

  ghost predicate NameTaken(rows: map<Vid, Row>, name: Id) { exists v :: v in rows && rows[v].name == name }

  /** The create announced and every member built on. */
  ghost function Fanned(w: World, tok: Token, d: Defn): World {
    w.(sites := Perform(w.sites, ForAll(d.members, DoApply(d))),
       inflight := w.inflight[tok := InFlight(Elems(d.members), d.zone, d.ctrl, w.now + PROVISIONING_TTL)])
  }

  /** Announce, build, and then roll back, give up or record. */
  ghost function BuildSpan(w: World, vid: Vid, tok: Token, d: Defn, atomic: bool, lost: set<Id>): World {
    SettleSpan(Fanned(w, tok, d), vid, tok, d, atomic, Reports(w.sites, ForAll(d.members, DoApply(d)), lost))
  }

  /** The row a create inserts. */
  function NewRow(d: Defn, st: map<Id, Status>): Row { Row(d.name, d, d.members, st, RollupOf(st), true) }

  ghost function SettleSpan(w: World, vid: Vid, tok: Token, d: Defn, atomic: bool, reports: map<Id, Outcome>): World
    requires Elems(d.members) <= reports.Keys
  {
    var st := Statuses(reports);
    if atomic && RollupOf(st) != AllApplied then
      w.(sites := Perform(w.sites, map c | c in d.members :: DoTeardown(d, reports[c].created)))
    else if NameTaken(w.rows, d.name) || vid in w.rows then w
    else w.(rows := w.rows[vid := NewRow(d, st)], inflight := w.inflight - {tok})
  }

  ghost function CreateSpan(w: World, vid: Vid, tok: Token, d: Defn, atomic: bool, lost: set<Id>): World {
    var p := PreflightSome(w.sites, d.members, d, |d.members|);
    if !p.ok then w.(sites := p.sites) else BuildSpan(w.(sites := p.sites), vid, tok, d, atomic, lost)
  }

  function Todo(row: Row): seq<Id> {
    var off := Unhealthy(row.members, row.status);
    if off == [] then row.members else off
  }

  function Unhealthy(members: seq<Id>, st: map<Id, Status>): seq<Id> {
    if members == [] then []
    else
      var c := members[|members| - 1];
      Unhealthy(members[..|members| - 1], st) + if c in st && Healthy(st[c]) then [] else [c]
  }

  function ReapplySpan(w: World, vid: Vid, lost: set<Id>): World {
    if vid !in w.rows then w
    else
      var row := w.rows[vid];
      var ops := ForAll(Todo(row), DoApply(row.desired));
      var merged := row.status + Statuses(Reports(w.sites, ops, lost));
      var shown := map c | c in row.members :: if c in merged then merged[c] else Failed;
      w.(sites := Perform(w.sites, ops), rows := w.rows[vid := row.(status := merged, rollup := RollupOf(shown))])
  }

  ghost function PurgeOps(w: World, vid: Vid, row: Row, unreadable: set<Id>): map<Id, MemberOp> {
    map c | c in row.members ::
      var (z, k) := SharedInfra(w, vid, c, row.desired, unreadable); DoTeardown(row.desired, PurgeList(z, k))
  }

  ghost function DeleteSpan(w: World, vid: Vid, purge: bool, unreadable: set<Id>): World {
    if vid !in w.rows then w
    else
      w.(sites := if purge then Perform(w.sites, PurgeOps(w, vid, w.rows[vid], unreadable)) else w.sites,
         rows := w.rows - {vid})
  }

  /** Fan one routine out over a row's members and merge the results into the row. */
  function FanAndMerge(w: World, vid: Vid, op: MemberOp, lost: set<Id>,
      updates: Option<(Option<string>, seq<Subnet>)>): World
    requires vid in w.rows
  {
    var ops := ForAll(w.rows[vid].members, op);
    w.(sites := Perform(w.sites, ops),
       rows := w.rows[vid := MergeWrite(w.rows[vid], Statuses(Reports(w.sites, ops, lost)), updates)])
  }

  function EditSpan(w: World, vid: Vid, ch: Changes, lost: set<Id>): World {
    if vid !in w.rows || (ch.alias.None? && ch.adds == [] && ch.dels == []) then w
    else
      var d := w.rows[vid].desired;
      FanAndMerge(w, vid, DoEdit(d.name, ch), lost, Some((ch.alias, EditedSubnets(d.subnets, ch))))
  }

  function ReconcileSpan(w: World, vid: Vid, lost: set<Id>): World {
    if vid !in w.rows then w else FanAndMerge(w, vid, DoReconcile(w.rows[vid].desired), lost, None)
  }

  function ScanSpan(w: World, vid: Vid): World {
    if vid !in w.rows then w else FanAndMerge(w, vid, DoLook(w.rows[vid].desired), {}, None)
  }

  ghost function AddMember(w: World, vid: Vid, c: Id): World {
    if vid !in w.rows || c == "" || c in w.rows[vid].members || c !in w.sites then w
    else
      var row := w.rows[vid];
      var (r, verdict) := PreflightOn(w.sites[c], row.desired);
      if !verdict.Clear? then w.(sites := w.sites[c := r])
      else
        var (r1, out) := ApplyOn(r, row.desired);
        if !out.status.Applied? then w.(sites := w.sites[c := Teardown(r1, row.desired, out.created).r])
        else w.(sites := w.sites[c := r1], rows := w.rows[vid := AddCommit(row, c, out.status)])
  }

  function RemoveMember(w: World, vid: Vid, c: Id, purge: bool): World {
    if vid !in w.rows || c !in w.rows[vid].members || |w.rows[vid].members| <= 1 then w
    else
      var row := w.rows[vid];
      var ops := map[c := DoTeardown(row.desired, [KVnet])];
      w.(sites := if purge then Perform(w.sites, ops) else w.sites, rows := w.rows[vid := RemoveCommit(row, c)])
  }

  // ---------------------------------------------------------------- the background scanner

  predicate Off(st: map<Id, Status>, c: Id) { c in st && (st[c].Drift? || st[c].Missing?) }

  /** Members to reconcile: drift at first sight, a missing vnet only when the previous pass saw it off as well. */
  function ToFix(row: Row, live: map<Id, Status>): set<Id> {
    set c | c in row.members && c in live && (live[c].Drift? || (live[c].Missing? && Off(row.status, c)))
  }

  datatype ScanResult = ScanResult(sites: map<Id, Remote>, row: Row, alerts: set<Id>, fixed: set<Id>)

  /** One pass over one row: look, reconcile what is off if the setting is on, look again, alert, store. */
  function ScanRow(sites: map<Id, Remote>, row: Row, reconcileOn: bool): ScanResult {
    if !row.enabled || row.members == [] then ScanResult(sites, row, {}, {})
    else
      var look := ForAll(row.members, DoLook(row.desired));
      var live := Statuses(Reports(sites, look, {}));
      Repair(Perform(sites, look), row, live, if reconcileOn then ToFix(row, live) else {})
  }

  function Repair(seen: map<Id, Remote>, row: Row, live: map<Id, Status>, fix: set<Id>): ScanResult {
    if fix == {} then Conclude(seen, row, live, fix)
    else
      var look := ForAll(row.members, DoLook(row.desired));
      var mended := Perform(seen, map c | c in fix :: DoReconcile(row.desired));
      Conclude(Perform(mended, look), row, Statuses(Reports(mended, look, {})), fix)
  }

  function Conclude(sites: map<Id, Remote>, row: Row, final: map<Id, Status>, fix: set<Id>): ScanResult {
    ScanResult(sites, row.(status := final, rollup := RollupOf(final)),
               (set c | c in row.members && Off(final, c) && !Off(row.status, c)), fix)
  }

  function ScanOne(w: World, vid: Vid, reconcileOn: bool): World {
    if vid !in w.rows then w
    else var s := ScanRow(w.sites, w.rows[vid], reconcileOn); w.(sites := s.sites, rows := w.rows[vid := s.row])
  }

  /** The first `n` rows of a pass. */
  function ScanSome(w: World, order: seq<Vid>, reconcileOn: bool, n: nat): World
    requires n <= |order|
  {
    if n == 0 then w else ScanOne(ScanSome(w, order, reconcileOn, n - 1), order[n - 1], reconcileOn)
  }

  // ---------------------------------------------------------------- runs

  datatype Step =
    | SCreate(vid: Vid, tok: Token, d: Defn, atomic: bool, lost: set<Id>)
    | SReapply(vid: Vid, lost: set<Id>)
    | SDelete(vid: Vid, purge: bool, unreadable: set<Id>)
    | SEdit(vid: Vid, ch: Changes, lost: set<Id>)
    | SReconcile(vid: Vid, lost: set<Id>)
    | SScan(vid: Vid)
    | SAdd(vid: Vid, c: Id)
    | SRemove(vid: Vid, c: Id, purge: bool)
    | SPass(order: seq<Vid>, reconcileOn: bool)
    | SWait(dt: nat)

  ghost function Next(w: World, s: Step): World {
    match s
    case SCreate(vid, tok, d, atomic, lost) => CreateSpan(w, vid, tok, d, atomic, lost)
    case SReapply(vid, lost) => ReapplySpan(w, vid, lost)
    case SDelete(vid, purge, unreadable) => DeleteSpan(w, vid, purge, unreadable)
    case SEdit(vid, ch, lost) => EditSpan(w, vid, ch, lost)
    case SReconcile(vid, lost) => ReconcileSpan(w, vid, lost)
    case SScan(vid) => ScanSpan(w, vid)
    case SAdd(vid, c) => AddMember(w, vid, c)
    case SRemove(vid, c, purge) => RemoveMember(w, vid, c, purge)
    case SPass(order, reconcileOn) => ScanSome(w, order, reconcileOn, |order|)
    case SWait(dt) => w.(now := w.now + dt)
  }

  ghost function Run(w: World, steps: seq<Step>): World {
    if steps == [] then w else Next(Run(w, steps[..|steps| - 1]), steps[|steps| - 1])
  }
}
