/** The values the EVPN orchestrator works with: parsed networks, one cluster's SDN objects, and the
    definition of a span (the "desired state" a database row holds). */
module SdnTypes {
  import opened Wrappers

  type Id = string

  /** A network as it was written: family, address with its host bits, prefix length. */
  datatype Cidr = Cidr(v6: bool, addr: nat, len: nat)

  function Width(v6: bool): nat { if v6 then 128 else 32 }

  function Pow2(n: nat): (p: nat)
    ensures p > 0
  {
    if n == 0 then 1 else 2 * Pow2(n - 1)
  }

  /** Number of addresses in the network `c` names. */
  function BlockSize(c: Cidr): (p: nat)
    ensures p > 0
  {
    if c.len <= Width(c.v6) then Pow2(Width(c.v6) - c.len) else 1
  }

  /** The network with its host bits cleared, which is what subnets are compared by. */
  function Canon(c: Cidr): Cidr { c.(addr := BlockStart(c.addr, BlockSize(c))) }

  function BlockStart(addr: nat, size: nat): (start: nat)
    requires size > 0
    ensures start <= addr < start + size
  {
    addr - addr % size
  }

  /** `ip` belongs to the network `c`. */
  predicate Contains(c: Cidr, ip: nat) { ip / BlockSize(c) == c.addr / BlockSize(c) }

  predicate ValidCidr(c: Cidr) { c.len <= Width(c.v6) }

  datatype Subnet = Subnet(cidr: Cidr, gateway: string, snat: bool)

  /** A subnet as a cluster lists it; a listing may omit the network and show only a composed id. */
  datatype LiveSubnet = LiveSubnet(cidr: Option<Cidr>, gateway: string, snat: bool)

  datatype Ctrl = Ctrl(evpn: bool, asn: nat, peers: seq<string>)

  /** A blank controller is "", a blank VRF is 0. */
  datatype Zone = Zone(evpn: bool, ctrl: Id, vrf: nat)

  /** A blank zone is "", a blank tag (VNI) is 0. */
  datatype Vnet = Vnet(zone: Id, tag: nat, alias: string, subnets: seq<LiveSubnet>)

  /** One cluster's SDN configuration. Subnets live inside their vnet, so they go when it goes. */
  datatype Cluster = Cluster(ctrls: map<Id, Ctrl>, zones: map<Id, Zone>, vnets: map<Id, Vnet>)

  /** The definition of a span, `desired_state` in a database row. */
  datatype Defn = Defn(name: Id, zone: Id, ctrl: Id, alias: string, vni: nat, asn: nat, vrf: nat,
                       peers: seq<string>, subnets: seq<Subnet>, members: seq<Id>)

  ghost predicate Distinct<T>(s: seq<T>) { forall i, j :: 0 <= i < j < |s| ==> s[i] != s[j] }

  /** What a validated definition guarantees and the orchestration relies on. */
  ghost predicate ValidDefn(d: Defn) {
    d.name != "" && d.zone != "" && d.ctrl != "" && d.vni > 0 && d.vrf > 0 && d.members != [] && Distinct(d.members)
  }

  function CtrlOf(d: Defn): Ctrl { Ctrl(true, d.asn, d.peers) }
  function ZoneOf(d: Defn): Zone { Zone(true, d.ctrl, d.vrf) }
  function VnetOf(d: Defn): Vnet { Vnet(d.zone, d.vni, d.alias, []) }
  function LiveOf(s: Subnet): LiveSubnet { LiveSubnet(Some(s.cidr), s.gateway, s.snat) }

  predicate CtrlFits(c: Ctrl, d: Defn) { c.evpn && c.asn == d.asn }
  predicate ZoneFits(z: Zone, d: Defn) {
    z.evpn && (z.ctrl == "" || z.ctrl == d.ctrl) && (z.vrf == 0 || z.vrf == d.vrf)
  }
  predicate VnetFits(v: Vnet, d: Defn) { (v.zone == "" || v.zone == d.zone) && (v.tag == 0 || v.tag == d.vni) }

  /** The networks a cluster shows under a vnet. */
  function NetsIn(subs: seq<LiveSubnet>): set<Cidr> { set s | s in subs && s.cidr.Some? :: Canon(s.cidr.value) }

  function LiveNets(cl: Cluster, name: Id): set<Cidr> {
    if name in cl.vnets then NetsIn(cl.vnets[name].subnets) else {}
  }

  /** The networks a definition asks for. */
  function NetsOf(subs: seq<Subnet>): set<Cidr> { set s | s in subs :: Canon(s.cidr) }

  /** A conflict the pre-flight reports: an object with one of our ids and another definition, or our VNI elsewhere. */
  ghost predicate Collides(cl: Cluster, d: Defn) {
    || (d.ctrl in cl.ctrls && !CtrlFits(cl.ctrls[d.ctrl], d))
    || (d.zone in cl.zones && !ZoneFits(cl.zones[d.zone], d))
    || (d.name in cl.vnets && !VnetFits(cl.vnets[d.name], d))
    || exists n :: n in cl.vnets && n != d.name && cl.vnets[n].tag != 0 && cl.vnets[n].tag == d.vni
  }

  /** The span's objects all exist on the cluster, each with a definition that fits. */
  predicate Built(cl: Cluster, d: Defn) {
    && d.ctrl in cl.ctrls && CtrlFits(cl.ctrls[d.ctrl], d)
    && d.zone in cl.zones && ZoneFits(cl.zones[d.zone], d)
    && d.name in cl.vnets && VnetFits(cl.vnets[d.name], d)
  }

  /** Non-blank VNIs are pairwise distinct on the cluster. */
  ghost predicate DistinctVnis(cl: Cluster) {
    forall m, n :: m in cl.vnets && n in cl.vnets && m != n && cl.vnets[m].tag != 0
        ==> cl.vnets[m].tag != cl.vnets[n].tag
  }

  /** Every vnet's zone and every zone's controller exists (or is blank). */
  ghost predicate Closed(cl: Cluster) {
    && (forall n :: n in cl.vnets ==> cl.vnets[n].zone == "" || cl.vnets[n].zone in cl.zones)
    && (forall z :: z in cl.zones ==> cl.zones[z].ctrl == "" || cl.zones[z].ctrl in cl.ctrls)
  }

  function Shell(v: Vnet): Vnet { v.(subnets := []) }

  /** The controllers, zones and vnets of a cluster, without the subnets under the vnets. */
  function Infra(cl: Cluster): Cluster { cl.(vnets := map n | n in cl.vnets :: Shell(cl.vnets[n])) }

  lemma ShellsAgree(a: Cluster, b: Cluster)
    requires a.ctrls == b.ctrls && a.zones == b.zones && a.vnets.Keys == b.vnets.Keys
    requires forall n :: n in a.vnets ==> Shell(a.vnets[n]) == Shell(b.vnets[n])
    ensures Infra(a) == Infra(b)
  {
  }

  lemma SameInfraSameKeys(a: Cluster, b: Cluster)
    requires Infra(a) == Infra(b)
    ensures a.ctrls == b.ctrls && a.zones == b.zones && a.vnets.Keys == b.vnets.Keys
  {
    assert Infra(a).vnets.Keys == a.vnets.Keys && Infra(b).vnets.Keys == b.vnets.Keys;
  }

  lemma {:induction false} Pow2Grows(m: nat, n: nat)
    requires m < n
    ensures Pow2(m) < Pow2(n)
  {
    if m + 1 < n { Pow2Grows(m, n - 1); }
  }

  function Times(k: nat, n: nat): nat { k * n }

  lemma OneBlockOn(k: nat, n: nat)
    ensures Times(k, n + 1) == Times(k, n) + k
  {
  }

  lemma {:induction false} NextBlock(k: nat, p: nat, q: nat)
    requires p < q
    ensures Times(k, p) + k <= Times(k, q)
  {
    OneBlockOn(k, q - 1);
    if p < q - 1 { NextBlock(k, p, q - 1); }
  }

  lemma InBlock(a: nat, k: nat)
    requires k > 0
    ensures BlockStart(a, k) == Times(k, a / k)
  {
  }

  /** Address `a` is in the block of size `k` that holds `b` exactly when it lies between that block's ends. */
  lemma BlockBounds(a: nat, b: nat, k: nat)
    requires k > 0
    ensures a / k == b / k <==> BlockStart(b, k) <= a < BlockStart(b, k) + k
  {
    InBlock(a, k);
    InBlock(b, k);
    if a / k < b / k { NextBlock(k, a / k, b / k); }
    if a / k > b / k { NextBlock(k, b / k, a / k); }
  }

  lemma SizeFixesLength(a: Cidr, b: Cidr)
    requires ValidCidr(a) && ValidCidr(b) && a.v6 == b.v6 && BlockSize(a) == BlockSize(b)
    ensures a.len == b.len
  {
    if a.len < b.len { Pow2Grows(Width(a.v6) - b.len, Width(a.v6) - a.len); }
    if b.len < a.len { Pow2Grows(Width(a.v6) - a.len, Width(a.v6) - b.len); }
  }

  /** Comparing canonical forms is comparing networks: same family and the same set of addresses. */
  lemma CanonIsNetworkEquality(a: Cidr, b: Cidr)
    requires ValidCidr(a) && ValidCidr(b) && a.v6 == b.v6
    ensures Canon(a) == Canon(b) <==> forall ip: nat :: Contains(a, ip) == Contains(b, ip)
  {
    var ka, kb := BlockSize(a), BlockSize(b);
    var la, lb := BlockStart(a.addr, ka), BlockStart(b.addr, kb);
    forall ip: nat ensures Contains(a, ip) <==> la <= ip < la + ka { BlockBounds(ip, a.addr, ka); }
    forall ip: nat ensures Contains(b, ip) <==> lb <= ip < lb + kb { BlockBounds(ip, b.addr, kb); }
    if forall ip: nat :: Contains(a, ip) == Contains(b, ip) {
      assert Contains(a, la) && Contains(b, lb) && Contains(a, la + ka - 1) && Contains(b, lb + kb - 1);
      SizeFixesLength(a, b);
    }
  }
}
