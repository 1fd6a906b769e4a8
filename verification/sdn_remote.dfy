/** What each per-cluster routine does to one cluster and to the conversation with it.

    A `Remote` is the cluster's configuration together with the replies it is going to give: every lookup,
    listing, POST, PUT, DELETE and reload takes the next reply, and the replies are arbitrary. A statement
    about every `Remote` is therefore a statement about every pattern of partial failure. */
module SdnRemote {
  import opened Wrappers
  import opened SdnTypes

  /** `Exists` is a refusal that says the object is already there; where nothing was posted it reads as `Good`.
      For the lookup of the cluster `Bad` is an offline cluster and `Absent` an unknown one; for a listing
      `Absent` is "SDN is not installed". */
  datatype Reply = Good | Exists | Bad | Absent {
    predicate Fine() { Good? || Exists? }
  }

  datatype Kind = KController | KZone | KVnet | KSubnet
  datatype Call = Post(kind: Kind, ok: bool) | Delete(kind: Kind, ok: bool) | Put(ok: bool) | Reload(ok: bool)
  datatype Status = Applied | Failed | Offline | NotFound | InSync | Drift | Missing | SdnMissing | Unreadable

  /** `log` records the writes that were sent, in order. */
  datatype Remote = Remote(cl: Cluster, fate: nat -> Reply, tick: nat, log: seq<Call>) {
    function Now(): Reply { fate(tick) }

    function Read(): Remote { this.(tick := tick + 1) }

    function Wrote(call: Call, after: Cluster): Remote { Remote(after, fate, tick + 1, log + [call]) }
  }

  /** Every reply from here on is good. */
  ghost predicate AllGood(r: Remote) { forall n :: n >= r.tick ==> r.fate(n).Good? }

  /** No reply from here on is a failure; a subnet that is already there may be refused as existing. */
  ghost predicate AllFine(r: Remote) { forall n :: n >= r.tick ==> r.fate(n).Fine() }

  function Reason(a: Reply): Option<Status> {
    match a
    case Bad => Some(Offline)
    case Absent => Some(NotFound)
    case _ => None
  }

  /** The controllers, zones and vnets listings, stopping at the first that fails. */
  function ReadThree(r: Remote): (Remote, bool) {
    var r1 := r.Read();
    if !r.Now().Fine() then (r1, false) else
    var r2 := r1.Read();
    if !r1.Now().Fine() then (r2, false) else
    (r2.Read(), r2.Now().Fine())
  }

  // ---------------------------------------------------------------- pre-flight

  datatype Verdict = Clear | Unreachable | ReadFailed | Conflicting

  ghost function PreflightOn(r: Remote, d: Defn): (Remote, Verdict) {
    if !r.Now().Fine() then (r.Read(), Unreachable) else
    var (r1, ok) := ReadThree(r.Read());
    (r1, if !ok then ReadFailed else if Collides(r.cl, d) then Conflicting else Clear)
  }

  // ---------------------------------------------------------------- build

  /** `ok` is false once a step has failed, after which nothing more is sent. */
  datatype Build = Build(r: Remote, ok: bool, changed: bool, created: seq<Kind>)

  datatype Outcome = Outcome(status: Status, created: seq<Kind>)

  /** Create one object unless it exists. */
  function Ensure(b: Build, kind: Kind, have: bool, after: Cluster): Build {
    if !b.ok || have then b
    else if b.r.Now().Fine() then Build(b.r.Wrote(Post(kind, true), after), true, true, b.created + [kind])
    else b.(r := b.r.Wrote(Post(kind, false), b.r.cl), ok := false)
  }

  function AddCtrl(cl: Cluster, d: Defn): Cluster { cl.(ctrls := cl.ctrls[d.ctrl := CtrlOf(d)]) }
  function AddZone(cl: Cluster, d: Defn): Cluster { cl.(zones := cl.zones[d.zone := ZoneOf(d)]) }
  function AddVnet(cl: Cluster, d: Defn): Cluster { cl.(vnets := cl.vnets[d.name := VnetOf(d)]) }

  /** Replace the subnets of a vnet. */
  function SetSubnets(cl: Cluster, name: Id, subs: seq<LiveSubnet>): Cluster {
    if name in cl.vnets then cl.(vnets := cl.vnets[name := cl.vnets[name].(subnets := subs)]) else cl
  }

  function SubnetsOf(cl: Cluster, name: Id): seq<LiveSubnet> { if name in cl.vnets then cl.vnets[name].subnets else [] }

  /** A cluster refuses a subnet of an unknown vnet, and may refuse one whose network it already has. */
  function TakesSubnet(r: Remote, name: Id, s: Subnet): bool {
    name in r.cl.vnets && (r.Now().Good? || (r.Now().Exists? && Canon(s.cidr) !in LiveNets(r.cl, name)))
  }

  function PostSubnet(r: Remote, name: Id, s: Subnet): Remote {
    var ok := TakesSubnet(r, name, s);
    r.Wrote(Post(KSubnet, ok), if ok then SetSubnets(r.cl, name, SubnetsOf(r.cl, name) + [LiveOf(s)]) else r.cl)
  }

  function EnsureSubnet(b: Build, name: Id, have: set<Cidr>, s: Subnet): Build {
    if !b.ok || Canon(s.cidr) in have then b
    else
      var ok := TakesSubnet(b.r, name, s);
      Build(PostSubnet(b.r, name, s), ok, b.changed || ok, b.created)
  }

  /** The first `n` subnets, compared with the networks `have` listed before the first was posted. */
  function EnsureSubnets(b: Build, name: Id, have: set<Cidr>, subs: seq<Subnet>, n: nat): Build
    requires n <= |subs|
  {
    if n == 0 then b else EnsureSubnet(EnsureSubnets(b, name, have, subs, n - 1), name, have, subs[n - 1])
  }

  function SubnetStage(b: Build, d: Defn): Build {
    if !b.ok || d.subnets == [] then b
    else
      var have := if b.r.Now().Fine() then LiveNets(b.r.cl, d.name) else {};
      EnsureSubnets(b.(r := b.r.Read()), d.name, have, d.subnets, |d.subnets|)
  }

  /** Reload only when this pass created something. */
  function ReloadStage(b: Build): Build {
    if !b.ok || !b.changed then b
    else b.(r := b.r.Wrote(Reload(b.r.Now().Fine()), b.r.cl), ok := b.r.Now().Fine())
  }

  function CtrlStage(b: Build, d: Defn): Build { Ensure(b, KController, d.ctrl in b.r.cl.ctrls, AddCtrl(b.r.cl, d)) }
  function ZoneStage(b: Build, d: Defn): Build { Ensure(b, KZone, d.zone in b.r.cl.zones, AddZone(b.r.cl, d)) }
  function VnetStage(b: Build, d: Defn): Build { Ensure(b, KVnet, d.name in b.r.cl.vnets, AddVnet(b.r.cl, d)) }

  /** Controller, then zone, then vnet. */
  function Skeleton(r: Remote, d: Defn): Build {
    VnetStage(ZoneStage(CtrlStage(Build(r, true, false, []), d), d), d)
  }

  function BuildFrom(r: Remote, d: Defn): Build { ReloadStage(SubnetStage(Skeleton(r, d), d)) }

  function ApplyOn(r: Remote, d: Defn): (Remote, Outcome) {
    if !r.Now().Fine() then (r.Read(), Outcome(Reason(r.Now()).value, []))
    else
      var (r1, ok) := ReadThree(r.Read());
      if !ok then (r1, Outcome(Failed, []))
      else
        var b := BuildFrom(r1, d);
        (b.r, Outcome(if b.ok then Applied else Failed, b.created))
  }

  // ---------------------------------------------------------------- teardown

  datatype Torn = Torn(r: Remote, deleted: seq<Kind>)

  function Drop(cl: Cluster, kind: Kind, d: Defn): Cluster {
    match kind
    case KController => cl.(ctrls := cl.ctrls - {d.ctrl})
    case KZone => cl.(zones := cl.zones - {d.zone})
    case KVnet => cl.(vnets := cl.vnets - {d.name})
    case KSubnet => cl
  }

  function TearOne(t: Torn, kind: Kind, created: seq<Kind>, d: Defn): Torn {
    if kind !in created then t
    else if t.r.Now().Fine() then Torn(t.r.Wrote(Delete(kind, true), Drop(t.r.cl, kind, d)), t.deleted + [kind])
    else Torn(t.r.Wrote(Delete(kind, false), t.r.cl), t.deleted)
  }

  /** Reverse dependency order. */
  const TEARDOWN_ORDER: seq<Kind> := [KVnet, KZone, KController]

  function TearSome(t: Torn, created: seq<Kind>, d: Defn, n: nat): Torn
    requires n <= 3
  {
    if n == 0 then t else TearOne(TearSome(t, created, d, n - 1), TEARDOWN_ORDER[n - 1], created, d)
  }

  function Teardown(r: Remote, d: Defn, created: seq<Kind>): Torn {
    if !r.Now().Fine() then Torn(r.Read(), [])
    else
      var t := TearSome(Torn(r.Read(), []), created, d, 3);
      t.(r := t.r.Wrote(Reload(t.r.Now().Fine()), t.r.cl))
  }

  /** What a full delete removes: the vnet, and the zone and controller unless another span shares them. */
  function PurgeList(zoneShared: bool, ctrlShared: bool): seq<Kind> {
    [KVnet] + (if zoneShared then [] else [KZone]) + (if ctrlShared then [] else [KController])
  }

  // ---------------------------------------------------------------- edit

  datatype Changes = Changes(alias: Option<string>, adds: seq<Subnet>, dels: seq<Cidr>)

  function SetAlias(cl: Cluster, name: Id, alias: string): Cluster {
    if name in cl.vnets then cl.(vnets := cl.vnets[name := cl.vnets[name].(alias := alias)]) else cl
  }

  function PutAlias(r: Remote, name: Id, alias: string): (Remote, bool) {
    var ok := r.Now().Fine() && name in r.cl.vnets;
    (r.Wrote(Put(ok), if ok then SetAlias(r.cl, name, alias) else r.cl), ok)
  }

  function AliasStage(b: Build, name: Id, alias: Option<string>): Build {
    if alias.None? then b
    else var (r, ok) := PutAlias(b.r, name, alias.value); Build(r, ok, b.changed || ok, b.created)
  }

  /** A refusal that says the subnet exists counts as success. */
  function AddSubnet(b: Build, name: Id, s: Subnet): Build {
    if !b.ok then b
    else
      var ok := TakesSubnet(b.r, name, s) || (b.r.Now().Exists? && name in b.r.cl.vnets);
      Build(PostSubnet(b.r, name, s), ok, b.changed || ok, b.created)
  }

  function AddSubnets(b: Build, name: Id, adds: seq<Subnet>, n: nat): Build
    requires n <= |adds|
  {
    if n == 0 then b else AddSubnet(AddSubnets(b, name, adds, n - 1), name, adds[n - 1])
  }

  /** Deleting listed subnets one at a time: `kept` are those of the listing read so far that are still there. */
  datatype Sweep = Sweep(r: Remote, kept: seq<LiveSubnet>, changed: bool)

  predicate Wanted(e: LiveSubnet, want: set<Cidr>) { e.cidr.Some? && Canon(e.cidr.value) in want }

  function SweepOne(s: Sweep, name: Id, e: LiveSubnet, rest: seq<LiveSubnet>, want: set<Cidr>): Sweep {
    if !Wanted(e, want) then s.(kept := s.kept + [e])
    else
      var ok := s.r.Now().Fine();
      var kept := if ok then s.kept else s.kept + [e];
      Sweep(s.r.Wrote(Delete(KSubnet, ok), SetSubnets(s.r.cl, name, kept + rest)), kept, true)
  }

  function SweepSome(s: Sweep, name: Id, es: seq<LiveSubnet>, want: set<Cidr>, n: nat): Sweep
    requires n <= |es|
  {
    if n == 0 then s else SweepOne(SweepSome(s, name, es, want, n - 1), name, es[n - 1], es[n..], want)
  }

  function CanonSet(cs: seq<Cidr>): set<Cidr> { set c | c in cs :: Canon(c) }

  function DeleteStage(b: Build, name: Id, dels: seq<Cidr>): Build {
    if !b.ok || dels == [] then b
    else
      var es := if b.r.Now().Fine() then SubnetsOf(b.r.cl, name) else [];
      var s := SweepSome(Sweep(b.r.Read(), [], b.changed), name, es, CanonSet(dels), |es|);
      b.(r := s.r, changed := s.changed)
  }

  function EditFrom(r: Remote, name: Id, ch: Changes): Build {
    var b := AliasStage(Build(r, true, false, []), name, ch.alias);
    ReloadStage(DeleteStage(AddSubnets(b, name, ch.adds, |ch.adds|), name, ch.dels))
  }

  function EditOn(r: Remote, name: Id, ch: Changes): (Remote, Status) {
    if !r.Now().Fine() then (r.Read(), Reason(r.Now()).value)
    else var b := EditFrom(r.Read(), name, ch); (b.r, if b.ok then Applied else Failed)
  }

  // ---------------------------------------------------------------- live status and reconcile

  function Classify(cl: Cluster, d: Defn): Status {
    if d.name !in cl.vnets then Missing
    else if VnetFits(cl.vnets[d.name], d) && cl.vnets[d.name].alias == d.alias then InSync
    else Drift
  }

  function LiveStatusOn(r: Remote, d: Defn): (Remote, Status) {
    if !r.Now().Fine() then (r.Read(), Reason(r.Now()).value)
    else
      var r1 := r.Read();
      (r1.Read(), match r1.Now()
                  case Absent => SdnMissing
                  case Bad => Unreadable
                  case _ => Classify(r.cl, d))
  }

  function RealignAlias(r: Remote, d: Defn): Remote {
    if d.name !in r.cl.vnets || r.cl.vnets[d.name].alias == d.alias then r
    else
      var (r1, ok) := PutAlias(r, d.name, d.alias);
      if ok then r1.Wrote(Reload(r1.Now().Fine()), r1.cl) else r1
  }

  function ReconcileOn(r: Remote, d: Defn): (Remote, Outcome) {
    var (r1, out) := ApplyOn(r, d);
    if !out.status.Applied? then (r1, out)
    else if !r1.Now().Fine() then (r1.Read(), out)
    else
      var r2 := r1.Read();
      if !r2.Now().Fine() then (r2.Read(), out) else (RealignAlias(r2.Read(), d), out)
  }
}
