/** Checking the definition a caller sends before anything is built from it. */
module SdnValidate {
  import opened SdnTypes
  import opened TextOrder

  const VNI_MAX := 16777215
  const ASN_MAX := 4294967295

  /** A number field as it was sent: missing or blank, a number, or something else. */
  datatype Field = Blank | Number(v: int) | NotANumber

  /** A peer address, and whether it reads as an IP address. */
  datatype Peer = Peer(text: string, isIp: bool)

  /** A subnet as it was sent: an object without the right shape, one whose network does not read, or one that does. */
  datatype SubnetIn = Misshapen | NoNetwork | SubnetIn(cidr: Cidr, gateway: string, gatewayIsIp: bool, snat: bool)

  datatype Body = Body(name: string, zone: string, controller: string, alias: string,
                       vni: Field, asn: Field, vrf: Field,
                       peers: seq<Peer>, subnets: seq<SubnetIn>, clusters: seq<string>)

  datatype Problem = BadName | BadZone | BadController | BadVni | BadAsn | BadVrf | BadPeer | BadSubnet | NoMembers

  datatype Result = Ok(defn: Defn) | Rejected(problem: Problem)

  // ---------------------------------------------------------------- identifiers and numbers

  predicate Letter(c: char) { 'a' <= c <= 'z' || 'A' <= c <= 'Z' }

  predicate AlphaNumeric(c: char) { Letter(c) || '0' <= c <= '9' }

  predicate ShortId(s: string) { 1 <= |s| <= 8 && Letter(s[0]) && forall i :: 0 <= i < |s| ==> AlphaNumeric(s[i]) }

  predicate LongId(s: string) {
    1 <= |s| <= 63 && Letter(s[0]) && forall i :: 0 <= i < |s| ==> AlphaNumeric(s[i]) || s[i] == '_' || s[i] == '-'
  }

  predicate InRange(f: Field, hi: int) { f.Number? && 1 <= f.v <= hi }

  // ---------------------------------------------------------------- lists

  predicate GoodSubnet(s: SubnetIn) { s.SubnetIn? && ValidCidr(s.cidr) && (Strip(s.gateway) != "" ==> s.gatewayIsIp) }

  function SubnetOf(s: SubnetIn): Subnet
    requires s.SubnetIn?
  {
    Subnet(s.cidr, Strip(s.gateway), s.snat)
  }

  predicate GoodPeer(p: Peer) { p.text == "" || p.isIp }

  /** The non-blank peers, in order. */
  function PeerTexts(peers: seq<Peer>): seq<string> {
    if peers == [] then []
    else var p := peers[|peers| - 1]; PeerTexts(peers[..|peers| - 1]) + if p.text == "" then [] else [p.text]
  }

  /** Peer by peer: a blank one contributes nothing, any other its text. */
  lemma {:induction false} PeersMeaning(before: seq<Peer>, p: Peer, after: seq<Peer>)
    ensures PeerTexts(before + [p] + after)
            == PeerTexts(before) + (if p.text == "" then [] else [p.text]) + PeerTexts(after)
    ensures PeerTexts([]) == []
  {
    if after == [] {
      assert before + [p] + after == before + [p];
      assert (before + [p])[..|before|] == before;
    } else {
      var rest, last := after[..|after| - 1], after[|after| - 1];
      PeersMeaning(before, p, rest);
      assert before + [p] + after == before + [p] + rest + [last];
      assert (before + [p] + rest + [last])[..|before| + 1 + |rest|] == before + [p] + rest;
    }
  }

  /** Stripped, without the blank ones, each once where it first appears. */
  function Members(clusters: seq<string>): seq<Id> {
    if clusters == [] then []
    else
      var c, ms := Strip(clusters[|clusters| - 1]), Members(clusters[..|clusters| - 1]);
      if c == "" || c in ms then ms else ms + [c]
  }

  method ReadPeers(peers: seq<Peer>) returns (ok: bool, texts: seq<string>)
    ensures ok <==> forall i :: 0 <= i < |peers| ==> GoodPeer(peers[i])
    ensures ok ==> texts == PeerTexts(peers)
  {
    texts := [];
    for i := 0 to |peers|
      invariant forall k :: 0 <= k < i ==> GoodPeer(peers[k])
      invariant texts == PeerTexts(peers[..i])
    {
      assert peers[..i + 1][..i] == peers[..i];
      if peers[i].text != "" {
        if !peers[i].isIp { return false, []; }
        texts := texts + [peers[i].text];
      }
    }
    assert peers[..|peers|] == peers;
    ok := true;
  }

  method ReadSubnets(subnets: seq<SubnetIn>) returns (ok: bool, out: seq<Subnet>)
    ensures ok <==> forall i :: 0 <= i < |subnets| ==> GoodSubnet(subnets[i])
    ensures ok ==> |out| == |subnets| &&
                   forall i :: 0 <= i < |out| ==> GoodSubnet(subnets[i]) && out[i] == SubnetOf(subnets[i])
  {
    out := [];
    for i := 0 to |subnets|
      invariant |out| == i
      invariant forall k :: 0 <= k < i ==> GoodSubnet(subnets[k]) && out[k] == SubnetOf(subnets[k])
    {
      var s := subnets[i];
      if s.Misshapen? || s.NoNetwork? { return false, []; }
      if !ValidCidr(s.cidr) { return false, []; }
      var gateway := Strip(s.gateway);
      if gateway != "" && !s.gatewayIsIp { return false, []; }
      out := out + [Subnet(s.cidr, gateway, s.snat)];
    }
    ok := true;
  }

  method ReadMembers(clusters: seq<string>) returns (members: seq<Id>)
    ensures members == Members(clusters)
  {
    members := [];
    for i := 0 to |clusters|
      invariant members == Members(clusters[..i])
    {
      assert clusters[..i + 1][..i] == clusters[..i];
      var c := Strip(clusters[i]);
      if c != "" && c !in members { members := members + [c]; }
    }
    assert clusters[..|clusters|] == clusters;
  }

  lemma {:induction false} MembersMeaning(clusters: seq<string>)
    ensures Distinct(Members(clusters))
    ensures forall m :: m in Members(clusters) <==>
              m != "" && exists i :: 0 <= i < |clusters| && Strip(clusters[i]) == m
  {
    if clusters != [] {
      var before, c := clusters[..|clusters| - 1], Strip(clusters[|clusters| - 1]);
      MembersMeaning(before);
      forall m
        ensures m in Members(clusters) <==> m != "" && exists i :: 0 <= i < |clusters| && Strip(clusters[i]) == m
      {
        if i :| 0 <= i < |clusters| && Strip(clusters[i]) == m {
          if i < |before| { assert Strip(before[i]) == m; }
        }
        if j :| 0 <= j < |before| && Strip(before[j]) == m { assert Strip(clusters[j]) == m; }
      }
    }
  }

  /** The members of a prefix of the request are a prefix of its members: order is that of first appearance. */
  lemma {:induction false} MembersKeepOrder(clusters: seq<string>, n: nat)
    requires n <= |clusters|
    ensures Members(clusters[..n]) <= Members(clusters)
  {
    if n < |clusters| {
      var before := clusters[..|clusters| - 1];
      MembersKeepOrder(before, n);
      assert before[..n] == clusters[..n];
    } else {
      assert clusters[..n] == clusters;
    }
  }

  // ---------------------------------------------------------------- the definition

  /** Everything the checks look at, in the order they look. */
  predicate Passes(b: Body, p: Problem) {
    match p
    case BadName => ShortId(Strip(b.name))
    case BadZone => ShortId(Strip(b.zone))
    case BadController => LongId(Strip(b.controller))
    case BadVni => InRange(b.vni, VNI_MAX)
    case BadAsn => InRange(b.asn, ASN_MAX)
    case BadVrf => b.vrf.Blank? || InRange(b.vrf, VNI_MAX)
    case BadPeer => forall i :: 0 <= i < |b.peers| ==> GoodPeer(b.peers[i])
    case BadSubnet => forall i :: 0 <= i < |b.subnets| ==> GoodSubnet(b.subnets[i])
    case NoMembers => exists i :: 0 <= i < |b.clusters| && Strip(b.clusters[i]) != ""
  }

  function Rank(p: Problem): nat {
    match p
    case BadName => 0 case BadZone => 1 case BadController => 2 case BadVni => 3 case BadAsn => 4
    case BadVrf => 5 case BadPeer => 6 case BadSubnet => 7 case NoMembers => 8
  }

  lemma MembersExist(clusters: seq<string>)
    ensures Members(clusters) != [] <==> exists i :: 0 <= i < |clusters| && Strip(clusters[i]) != ""
  {
    MembersMeaning(clusters);
    if Members(clusters) != [] { assert Members(clusters)[0] in Members(clusters); }
    if i :| 0 <= i < |clusters| && Strip(clusters[i]) != "" { assert Strip(clusters[i]) in Members(clusters); }
  }

  /** The definition that an acceptable body stands for. */
  predicate Reads(b: Body, d: Defn) {
    && d.name == Strip(b.name) && d.zone == Strip(b.zone) && d.ctrl == Strip(b.controller) && d.alias == Strip(b.alias)
    && Number(d.vni) == b.vni && Number(d.asn) == b.asn
    && (b.vrf == Number(d.vrf) || (b.vrf.Blank? && d.vrf == d.vni))
    && d.peers == PeerTexts(b.peers) && d.members == Members(b.clusters)
    && |d.subnets| == |b.subnets|
    && forall i :: 0 <= i < |b.subnets| ==> GoodSubnet(b.subnets[i]) && d.subnets[i] == SubnetOf(b.subnets[i])
  }

  /** A definition is accepted exactly when every check passes; otherwise the first one that fails is reported.
      What is accepted is what the orchestration relies on. */
  method Validate(b: Body) returns (r: Result)
    ensures r.Rejected? ==> !Passes(b, r.problem) && forall p :: Rank(p) < Rank(r.problem) ==> Passes(b, p)
    ensures r.Ok? <==> forall p :: Passes(b, p)
    ensures r.Ok? ==> ValidDefn(r.defn) && Reads(b, r.defn)
    ensures r.Ok? ==> 1 <= r.defn.vni <= 16777215 && 1 <= r.defn.asn <= 4294967295 && 1 <= r.defn.vrf <= 16777215
  {
    var name, zone, controller := Strip(b.name), Strip(b.zone), Strip(b.controller);
    if !ShortId(name) { return Rejected(BadName); }
    if !ShortId(zone) { return Rejected(BadZone); }
    if !LongId(controller) { return Rejected(BadController); }
    if !InRange(b.vni, VNI_MAX) { return Rejected(BadVni); }
    if !InRange(b.asn, ASN_MAX) { return Rejected(BadAsn); }
    if !b.vrf.Blank? && !InRange(b.vrf, VNI_MAX) { return Rejected(BadVrf); }
    var vrf := if b.vrf.Blank? then b.vni.v else b.vrf.v;
    var peersOk, peers := ReadPeers(b.peers);
    if !peersOk { return Rejected(BadPeer); }
    var subnetsOk, subnets := ReadSubnets(b.subnets);
    if !subnetsOk { return Rejected(BadSubnet); }
    var members := ReadMembers(b.clusters);
    MembersMeaning(b.clusters);
    MembersExist(b.clusters);
    if members == [] { return Rejected(NoMembers); }
    r := Ok(Defn(name, zone, controller, Strip(b.alias), b.vni.v, b.asn.v, vrf, peers, subnets, members));
  }
}
