/** The idempotent build of one span on one cluster: what it may change, when a re-run is silent, how far the
    replies let it get, and when what was written is left without a reload. */
module SdnBuild {
  import opened Wrappers
  import opened SdnTypes
  import opened SdnRemote

  // ---------------------------------------------------------------- what a build may change

  /** `b` is `a` plus exactly the created objects, none of which `a` had, plus subnets under the span's vnet. */
  ghost predicate Grown(a: Cluster, b: Cluster, d: Defn, created: seq<Kind>) {
    && b.ctrls == (if KController in created then a.ctrls[d.ctrl := CtrlOf(d)] else a.ctrls)
    && b.zones == (if KZone in created then a.zones[d.zone := ZoneOf(d)] else a.zones)
    && b.vnets.Keys == a.vnets.Keys + (if KVnet in created then {d.name} else {})
    && (forall n :: n in a.vnets && n != d.name ==> b.vnets[n] == a.vnets[n])
    && (KVnet !in created && d.name in a.vnets ==> Shell(b.vnets[d.name]) == Shell(a.vnets[d.name]))
    && (KVnet in created ==> d.name !in a.vnets && Shell(b.vnets[d.name]) == VnetOf(d))
    && (KController in created ==> d.ctrl !in a.ctrls)
    && (KZone in created ==> d.zone !in a.zones)
    && KSubnet !in created
  }

  ghost predicate Present(cl: Cluster, d: Defn) { d.ctrl in cl.ctrls && d.zone in cl.zones && d.name in cl.vnets }

  lemma {:induction false} EnsureSubnetsFrame(b: Build, name: Id, have: set<Cidr>, subs: seq<Subnet>, n: nat)
    requires n <= |subs|
    ensures var e := EnsureSubnets(b, name, have, subs, n);
            && e.r.cl == SetSubnets(b.r.cl, name, SubnetsOf(e.r.cl, name))
            && e.created == b.created && e.r.fate == b.r.fate && e.r.tick >= b.r.tick
            && (e.ok ==> b.ok) && (b.changed ==> e.changed)
            && SubnetsOf(b.r.cl, name) <= SubnetsOf(e.r.cl, name)
  {
    if n > 0 { EnsureSubnetsFrame(b, name, have, subs, n - 1); }
  }

  lemma StagesGrow(r: Remote, d: Defn)
    ensures var b := Skeleton(r, d);
            && Grown(r.cl, b.r.cl, d, b.created) && (b.ok ==> Present(b.r.cl, d))
            && b.r.fate == r.fate && b.r.tick >= r.tick && (b.changed <==> b.created != [])
            && (d.name in r.cl.vnets ==> b.r.cl.vnets == r.cl.vnets)
  {
    var b1 := CtrlStage(Build(r, true, false, []), d);
    var b2 := ZoneStage(b1, d);
    assert Grown(r.cl, b1.r.cl, d, b1.created) && b1.created <= [KController] && (b1.ok ==> d.ctrl in b1.r.cl.ctrls);
    assert Grown(r.cl, b2.r.cl, d, b2.created) && KVnet !in b2.created && (b2.ok ==> d.zone in b2.r.cl.zones);
  }

  lemma SubnetStageGrows(b: Build, d: Defn, a: Cluster)
    requires Grown(a, b.r.cl, d, b.created) && (b.ok ==> Present(b.r.cl, d))
    ensures var e := SubnetStage(b, d);
            && Grown(a, e.r.cl, d, b.created) && e.created == b.created && (e.ok ==> Present(e.r.cl, d))
            && e.r.fate == b.r.fate && e.r.tick >= b.r.tick && (b.changed ==> e.changed)
            && SubnetsOf(b.r.cl, d.name) <= SubnetsOf(e.r.cl, d.name)
  {
    if b.ok && d.subnets != [] {
      var have := if b.r.Now().Fine() then LiveNets(b.r.cl, d.name) else {};
      EnsureSubnetsFrame(b.(r := b.r.Read()), d.name, have, d.subnets, |d.subnets|);
    }
  }

  /** Whatever fails, a build only adds: the objects it reports as created and subnets under the span's vnet.
      When it reports success, controller, zone and vnet are all there. */
  lemma ApplyGrows(r: Remote, d: Defn)
    ensures var (r', out) := ApplyOn(r, d);
            && Grown(r.cl, r'.cl, d, out.created) && (out.status.Applied? ==> Present(r'.cl, d))
            && r'.fate == r.fate && r'.tick > r.tick
            && SubnetsOf(r.cl, d.name) <= SubnetsOf(r'.cl, d.name)
  {
    if r.Now().Fine() && ReadThree(r.Read()).1 {
      var r1 := ReadThree(r.Read()).0;
      StagesGrow(r1, d);
      SubnetStageGrows(Skeleton(r1, d), d, r.cl);
    }
  }

  /** What a build creates is what the definition asks for, field by field, and nothing is created that was there. */
  lemma CreatedAsRequested(r: Remote, d: Defn)
    ensures var (r1, out) := ApplyOn(r, d); var a, b := r.cl, r1.cl;
            && (KController in out.created <==> d.ctrl !in a.ctrls && d.ctrl in b.ctrls)
            && (KController in out.created ==>
                  var k := b.ctrls[d.ctrl]; k.evpn && k.asn == d.asn && k.peers == d.peers)
            && (KZone in out.created <==> d.zone !in a.zones && d.zone in b.zones)
            && (KZone in out.created ==>
                  var z := b.zones[d.zone]; z.evpn && z.ctrl == d.ctrl && z.vrf == d.vrf)
            && (KVnet in out.created <==> d.name !in a.vnets && d.name in b.vnets)
            && (KVnet in out.created ==>
                  var v := b.vnets[d.name]; v.zone == d.zone && v.tag == d.vni && v.alias == d.alias)
  {
    ApplyGrows(r, d);
    var (r1, out) := ApplyOn(r, d);
    if KVnet in out.created {
      var v := Shell(r1.cl.vnets[d.name]);
      assert v.zone == d.zone && v.tag == d.vni && v.alias == d.alias;
    }
  }

  /** A live subnet with the network, the gateway and the SNAT flag that were asked for. */
  predicate AsAsked(e: LiveSubnet, s: Subnet) { e.cidr == Some(s.cidr) && e.gateway == s.gateway && e.snat == s.snat }

  /** `after` is `before` with subnets appended that were asked for. */
  ghost predicate Extended(before: seq<LiveSubnet>, after: seq<LiveSubnet>, asked: seq<Subnet>) {
    && before <= after
    && forall i :: |before| <= i < |after| ==> exists s :: s in asked && AsAsked(after[i], s)
  }

  lemma {:induction false} EnsureSubnetsExtend(b: Build, name: Id, have: set<Cidr>, subs: seq<Subnet>, n: nat)
    requires n <= |subs|
    ensures Extended(SubnetsOf(b.r.cl, name), SubnetsOf(EnsureSubnets(b, name, have, subs, n).r.cl, name), subs)
  {
    if n > 0 {
      EnsureSubnetsExtend(b, name, have, subs, n - 1);
      assert AsAsked(LiveOf(subs[n - 1]), subs[n - 1]) && subs[n - 1] in subs;
    }
  }

  /** Every subnet a build adds carries the network, gateway and SNAT flag of one the definition asks for. */
  lemma SubnetsAsRequested(r: Remote, d: Defn)
    ensures Extended(SubnetsOf(r.cl, d.name), SubnetsOf(ApplyOn(r, d).0.cl, d.name), d.subnets)
  {
    if r.Now().Fine() && ReadThree(r.Read()).1 {
      var r1 := ReadThree(r.Read()).0;
      var b := Skeleton(r1, d);
      StagesGrow(r1, d);
      SkeletonKeepsSubnets(r1, d);
      if b.ok && d.subnets != [] {
        var have := if b.r.Now().Fine() then LiveNets(b.r.cl, d.name) else {};
        EnsureSubnetsExtend(b.(r := b.r.Read()), d.name, have, d.subnets, |d.subnets|);
      }
    }
  }

  lemma SkeletonKeepsSubnets(r: Remote, d: Defn)
    ensures SubnetsOf(Skeleton(r, d).r.cl, d.name) == SubnetsOf(r.cl, d.name)
  {
    var b1 := CtrlStage(Build(r, true, false, []), d);
    var b2 := ZoneStage(b1, d);
    assert b2.r.cl.vnets == r.cl.vnets;
  }

  /** A build that was clear of conflicts and reports success leaves the span built with its definition. */
  lemma AppliedIsBuilt(r: Remote, d: Defn)
    requires !Collides(r.cl, d) && ApplyOn(r, d).1.status.Applied?
    ensures Built(ApplyOn(r, d).0.cl, d)
  {
    ApplyGrows(r, d);
  }

  /** A build disturbs no span that is already built on the cluster. */
  lemma ApplyKeepsBuilt(r: Remote, d: Defn, other: Defn)
    requires Built(r.cl, other)
    ensures Built(ApplyOn(r, d).0.cl, other)
  {
    ApplyGrows(r, d);
  }

  /** VNIs stay pairwise distinct when the vnet exists already or the pre-flight was clear. */
  lemma ApplyKeepsVnis(r: Remote, d: Defn)
    requires DistinctVnis(r.cl) && (d.name in r.cl.vnets || !Collides(r.cl, d))
    ensures DistinctVnis(ApplyOn(r, d).0.cl)
  {
    ApplyGrows(r, d);
    var cl, created := ApplyOn(r, d).0.cl, ApplyOn(r, d).1.created;
    forall m, n | m in cl.vnets && n in cl.vnets && m != n && cl.vnets[m].tag != 0
      ensures cl.vnets[m].tag != cl.vnets[n].tag
    {
      assert forall k :: k in cl.vnets && k in r.cl.vnets ==> Shell(cl.vnets[k]).tag == Shell(r.cl.vnets[k]).tag;
      assert KVnet in created ==> Shell(cl.vnets[d.name]).tag == d.vni;
    }
  }

  // ---------------------------------------------------------------- how far the replies let a build get

  /** The next `n` replies are no failures. */
  ghost predicate FineFor(r: Remote, n: nat) { forall k :: r.tick <= k < r.tick + n ==> r.fate(k).Fine() }

  /** How many of controller, zone and vnet the cluster lacks. */
  function Lacking(cl: Cluster, d: Defn): nat {
    (if d.ctrl in cl.ctrls then 0 else 1) + (if d.zone in cl.zones then 0 else 1)
        + (if d.name in cl.vnets then 0 else 1)
  }

  /** Nothing is lacking, or the lookup, the three listings and the POSTs of what is lacking succeed. */
  ghost predicate Reaches(r: Remote, d: Defn) { Present(r.cl, d) || FineFor(r, 4 + Lacking(r.cl, d)) }

  lemma SkeletonReaches(r: Remote, d: Defn)
    ensures Present(Skeleton(r, d).r.cl, d) <==> FineFor(r, Lacking(r.cl, d))
  {
    var b1 := CtrlStage(Build(r, true, false, []), d);
    var b2 := ZoneStage(b1, d);
    var n1 := if d.ctrl in r.cl.ctrls then 0 else 1;
    var n2 := n1 + if d.zone in r.cl.zones then 0 else 1;
    FirstReplies(r, n1, n2);
    FirstReplies(r, n2, Lacking(r.cl, d));
    assert b1.ok <==> FineFor(r, n1);
    assert b2.ok <==> FineFor(r, n2);
  }

  lemma FirstReplies(r: Remote, m: nat, n: nat)
    requires m <= n <= m + 1
    ensures FineFor(r, n) <==> FineFor(r, m) && (m < n ==> r.fate(r.tick + m).Fine())
  {
  }

  lemma SubnetStageKeepsPresent(b: Build, d: Defn)
    ensures Present(SubnetStage(b, d).r.cl, d) <==> Present(b.r.cl, d)
  {
    if b.ok && d.subnets != [] {
      var have := if b.r.Now().Fine() then LiveNets(b.r.cl, d.name) else {};
      EnsureSubnetsFrame(b.(r := b.r.Read()), d.name, have, d.subnets, |d.subnets|);
    }
  }

  /** A build ends with controller, zone and vnet in place exactly when the replies let it get that far, whether or
      not the subnets and the reload then succeed. */
  lemma PresentIff(r: Remote, d: Defn)
    ensures Present(ApplyOn(r, d).0.cl, d) <==> Reaches(r, d)
  {
    if FineFor(r, 4) {
      assert r.fate(r.tick).Fine() && r.fate(r.tick + 1).Fine() && r.fate(r.tick + 2).Fine()
             && r.fate(r.tick + 3).Fine();
      var r1 := ReadThree(r.Read()).0;
      assert r1.tick == r.tick + 4 && r1.cl == r.cl && r1.fate == r.fate;
      SkeletonReaches(r1, d);
      SubnetStageKeepsPresent(Skeleton(r1, d), d);
      FineInTwo(r, r1, Lacking(r.cl, d));
      assert Lacking(r.cl, d) == 0 <==> Present(r.cl, d);
    } else {
      var k :| r.tick <= k < r.tick + 4 && !r.fate(k).Fine();
      assert !FineFor(r, 4 + Lacking(r.cl, d));
    }
  }

  lemma FineInTwo(r: Remote, r1: Remote, n: nat)
    requires FineFor(r, 4) && r1.fate == r.fate && r1.tick == r.tick + 4
    ensures FineFor(r, 4 + n) <==> FineFor(r1, n)
  {
  }

  // ---------------------------------------------------------------- when a build is silent

  /** Everything the definition asks for is on the cluster. */
  ghost predicate Complete(cl: Cluster, d: Defn) { Present(cl, d) && NetsOf(d.subnets) <= LiveNets(cl, d.name) }

  /** The lookup and the (at most four) listings of the next build succeed. */
  ghost predicate ReadsFine(r: Remote) { FineFor(r, 5) }

  lemma PrefixNets(xs: seq<LiveSubnet>, ys: seq<LiveSubnet>)
    requires xs <= ys
    ensures NetsIn(xs) <= NetsIn(ys)
  {
    forall x | x in xs ensures x in ys { var i :| 0 <= i < |xs| && xs[i] == x; assert ys[i] == x; }
  }

  /** While every step succeeds, each of the first `n` subnets is either listed or live. */
  lemma {:induction false} SubnetsArrive(b: Build, name: Id, have: set<Cidr>, subs: seq<Subnet>, n: nat)
    requires n <= |subs| && EnsureSubnets(b, name, have, subs, n).ok
    requires have <= LiveNets(b.r.cl, name)
    ensures have + NetsOf(subs[..n]) <= LiveNets(EnsureSubnets(b, name, have, subs, n).r.cl, name)
  {
    EnsureSubnetsFrame(b, name, have, subs, n);
    var e := EnsureSubnets(b, name, have, subs, n);
    PrefixNets(SubnetsOf(b.r.cl, name), SubnetsOf(e.r.cl, name));
    if n > 0 {
      var e0, s := EnsureSubnets(b, name, have, subs, n - 1), subs[n - 1];
      SubnetsArrive(b, name, have, subs, n - 1);
      assert subs[..n] == subs[..n - 1] + [s];
      if Canon(s.cidr) !in have {
        assert SubnetsOf(e.r.cl, name) == SubnetsOf(e0.r.cl, name) + [LiveOf(s)];
        PrefixNets(SubnetsOf(e0.r.cl, name), SubnetsOf(e.r.cl, name));
        assert LiveOf(s) in SubnetsOf(e.r.cl, name);
      }
    }
  }

  /** Subnets are posted exactly when one of them is not in the listing. */
  lemma {:induction false} SubnetsSilentIff(b: Build, name: Id, have: set<Cidr>, subs: seq<Subnet>, n: nat)
    requires n <= |subs| && b.ok
    ensures NetsOf(subs[..n]) <= have ==> EnsureSubnets(b, name, have, subs, n) == b
    ensures !(NetsOf(subs[..n]) <= have) ==> |EnsureSubnets(b, name, have, subs, n).r.log| > |b.r.log|
    ensures |EnsureSubnets(b, name, have, subs, n).r.log| >= |b.r.log|
  {
    if n > 0 {
      SubnetsSilentIff(b, name, have, subs, n - 1);
      assert subs[..n] == subs[..n - 1] + [subs[n - 1]];
      assert NetsOf(subs[..n]) == NetsOf(subs[..n - 1]) + {Canon(subs[n - 1].cidr)};
    }
  }

  /** A build that reports success leaves everything the definition asks for on the cluster. */
  lemma AppliedIsComplete(r: Remote, d: Defn)
    requires ApplyOn(r, d).1.status.Applied?
    ensures Complete(ApplyOn(r, d).0.cl, d)
  {
    ApplyGrows(r, d);
    var r1 := ReadThree(r.Read()).0;
    CompleteWhenOk(r1, d);
  }

  lemma CompleteWhenOk(r: Remote, d: Defn)
    requires var b := Skeleton(r, d); SubnetStage(b, d).ok
    ensures Complete(BuildFrom(r, d).r.cl, d)
  {
    var b := Skeleton(r, d);
    StagesGrow(r, d);
    SubnetStageGrows(b, d, r.cl);
    if d.subnets != [] {
      var have := if b.r.Now().Fine() then LiveNets(b.r.cl, d.name) else {};
      SubnetsArrive(b.(r := b.r.Read()), d.name, have, d.subnets, |d.subnets|);
      assert d.subnets[..|d.subnets|] == d.subnets;
    }
  }

  /** With the listings readable, a build sends nothing and reports success exactly when nothing is missing. */
  lemma SilentIffComplete(r: Remote, d: Defn)
    requires ReadsFine(r)
    ensures var (r', out) := ApplyOn(r, d); out.status.Applied? && r'.log == r.log <==> Complete(r.cl, d)
    ensures Complete(r.cl, d) ==> ApplyOn(r, d).0.cl == r.cl && ApplyOn(r, d).1 == Outcome(Applied, [])
  {
    assert r.fate(r.tick).Fine() && r.fate(r.tick + 1).Fine() && r.fate(r.tick + 2).Fine() && r.fate(r.tick + 3).Fine();
    var r1 := ReadThree(r.Read()).0;
    var b := Skeleton(r1, d);
    StagesGrow(r1, d);
    if Present(r.cl, d) {
      assert b == Build(r1, true, false, []);
      if d.subnets != [] {
        SubnetsSilentIff(b.(r := b.r.Read()), d.name, LiveNets(b.r.cl, d.name), d.subnets, |d.subnets|);
        assert d.subnets[..|d.subnets|] == d.subnets;
      }
    } else {
      assert |b.r.log| > |r1.log|;
      SubnetStageLog(b, d);
    }
  }

  lemma SubnetStageLog(b: Build, d: Defn)
    ensures |SubnetStage(b, d).r.log| >= |b.r.log|
  {
    if b.ok && d.subnets != [] {
      var have := if b.r.Now().Fine() then LiveNets(b.r.cl, d.name) else {};
      SubnetsSilentIff(b.(r := b.r.Read()), d.name, have, d.subnets, |d.subnets|);
    }
  }

  // ---------------------------------------------------------------- when a build reports success

  ghost predicate AllOk(calls: seq<Call>) { forall c :: c in calls ==> c.ok }

  /** The build goes on exactly as long as every call it sent succeeded. */
  ghost predicate GoesOn(r: Remote, b: Build) { r.log <= b.r.log && (b.ok <==> AllOk(Since(r, b.r.log))) }

  lemma EnsureGoesOn(r: Remote, b: Build, kind: Kind, have: bool, after: Cluster)
    requires GoesOn(r, b)
    ensures GoesOn(r, Ensure(b, kind, have, after))
  {
    if b.ok && !have { OneMoreCall(r, b.r.log, Post(kind, b.r.Now().Fine())); }
  }

  lemma OneMoreCall(r: Remote, log: seq<Call>, call: Call)
    requires r.log <= log
    ensures r.log <= log + [call] && Since(r, log + [call]) == Since(r, log) + [call]
    ensures AllOk(Since(r, log + [call])) <==> AllOk(Since(r, log)) && call.ok
  {
    assert Since(r, log + [call]) == Since(r, log) + [call];
  }

  lemma {:induction false} SubnetsGoOn(r: Remote, b: Build, name: Id, have: set<Cidr>, subs: seq<Subnet>, n: nat)
    requires n <= |subs| && GoesOn(r, b)
    ensures GoesOn(r, EnsureSubnets(b, name, have, subs, n))
  {
    if n > 0 {
      SubnetsGoOn(r, b, name, have, subs, n - 1);
      var e := EnsureSubnets(b, name, have, subs, n - 1);
      if e.ok && Canon(subs[n - 1].cidr) !in have {
        OneMoreCall(r, e.r.log, Post(KSubnet, TakesSubnet(e.r, name, subs[n - 1])));
      }
    }
  }

  lemma BuildGoesOn(r: Remote, d: Defn)
    ensures GoesOn(r, BuildFrom(r, d))
  {
    var b0 := Build(r, true, false, []);
    var b1 := CtrlStage(b0, d);
    var b2 := ZoneStage(b1, d);
    assert GoesOn(r, b0);
    EnsureGoesOn(r, b0, KController, d.ctrl in r.cl.ctrls, AddCtrl(r.cl, d));
    EnsureGoesOn(r, b1, KZone, d.zone in b1.r.cl.zones, AddZone(b1.r.cl, d));
    EnsureGoesOn(r, b2, KVnet, d.name in b2.r.cl.vnets, AddVnet(b2.r.cl, d));
    SubnetStageGoesOn(r, Skeleton(r, d), d);
    ReloadGoesOn(r, SubnetStage(Skeleton(r, d), d));
  }

  lemma SubnetStageGoesOn(r: Remote, b: Build, d: Defn)
    requires GoesOn(r, b)
    ensures GoesOn(r, SubnetStage(b, d))
  {
    if b.ok && d.subnets != [] {
      var have := if b.r.Now().Fine() then LiveNets(b.r.cl, d.name) else {};
      SubnetsGoOn(r, b.(r := b.r.Read()), d.name, have, d.subnets, |d.subnets|);
    }
  }

  lemma ReloadGoesOn(r: Remote, b: Build)
    requires GoesOn(r, b)
    ensures GoesOn(r, ReloadStage(b))
  {
    if b.ok && b.changed { OneMoreCall(r, b.r.log, Reload(b.r.Now().Fine())); }
  }

  /** A build reports success exactly when the lookup and the three listings succeed and so does every call it sends; an
      offline or unknown cluster is reported as such. */
  lemma AppliedIff(r: Remote, d: Defn)
    ensures var (r1, out) := ApplyOn(r, d);
            && r.log <= r1.log
            && (out.status.Applied? <==> FineFor(r, 4) && AllOk(Since(r, r1.log)))
            && (out.status.Offline? <==> r.Now().Bad?) && (out.status.NotFound? <==> r.Now().Absent?)
            && (out.status.Applied? || out.status.Failed? || out.status.Offline? || out.status.NotFound?)
  {
    if FineFor(r, 4) {
      assert r.fate(r.tick).Fine() && r.fate(r.tick + 1).Fine();
      assert r.fate(r.tick + 2).Fine() && r.fate(r.tick + 3).Fine();
      BuildGoesOn(ReadThree(r.Read()).0, d);
    } else {
      assert !r.Now().Fine() || !ReadThree(r.Read()).1;
    }
  }

  /** Re-running a build that reported success sends no POST and no reload and changes nothing. */
  lemma BuildIdempotent(r: Remote, d: Defn)
    requires ApplyOn(r, d).1.status.Applied? && ReadsFine(ApplyOn(r, d).0)
    ensures var r' := ApplyOn(r, d).0; var (again, out) := ApplyOn(r', d);
            again.cl == r'.cl && again.log == r'.log && out == Outcome(Applied, [])
  {
    AppliedIsComplete(r, d);
    var r' := ApplyOn(r, d).0;
    SilentIffComplete(r', d);
  }

  // ---------------------------------------------------------------- writes and the reload

  /** The writes sent since `r`. */
  function Since(r: Remote, log: seq<Call>): seq<Call>
    requires r.log <= log
  {
    log[|r.log|..]
  }

  ghost predicate Posts(calls: seq<Call>) { forall c :: c in calls ==> c.Post? && c.ok }

  /** A build under way: only successful POSTs so far, and `changed` says whether there was one. */
  ghost predicate Underway(r: Remote, b: Build) {
    && r.log <= b.r.log
    && (b.ok ==> Posts(Since(r, b.r.log)) && (b.changed <==> Since(r, b.r.log) != []))
    && (b.ok && !b.changed ==> b.r.cl == r.cl)
  }

  lemma {:induction false} SubnetsUnderway(r: Remote, b: Build, name: Id, have: set<Cidr>, subs: seq<Subnet>, n: nat)
    requires n <= |subs| && Underway(r, b)
    ensures Underway(r, EnsureSubnets(b, name, have, subs, n))
  {
    if n > 0 { SubnetsUnderway(r, b, name, have, subs, n - 1); }
  }

  lemma BuildUnderway(r: Remote, d: Defn)
    ensures Underway(r, SubnetStage(Skeleton(r, d), d))
  {
    var b := Skeleton(r, d);
    assert Underway(r, b);
    if b.ok && d.subnets != [] {
      var have := if b.r.Now().Fine() then LiveNets(b.r.cl, d.name) else {};
      SubnetsUnderway(r, b.(r := b.r.Read()), d.name, have, d.subnets, |d.subnets|);
    }
  }

  /** A build that reports success either sent nothing and changed nothing, or ended in a successful reload
      after its last POST, all of which succeeded. */
  lemma AppliedReloadsLast(r: Remote, d: Defn)
    requires ApplyOn(r, d).1.status.Applied?
    ensures var r' := ApplyOn(r, d).0;
            && r.log <= r'.log
            && var sent := Since(r, r'.log);
               if sent == [] then r'.cl == r.cl
               else |sent| > 1 && sent[|sent| - 1] == Reload(true) && Posts(sent[..|sent| - 1])
  {
    var r1 := ReadThree(r.Read()).0;
    BuildUnderway(r1, d);
    var b := SubnetStage(Skeleton(r1, d), d);
    assert Since(r1, ReloadStage(b).r.log) == Since(r1, b.r.log) + if b.changed then [Reload(true)] else [];
  }

  /** A reload that fails is never retried: the next build finds everything in place, sends nothing and
      reports success although no reload went through. */
  lemma FailedReloadIsForgotten(r: Remote, d: Defn)
    requires var (r', out) := ApplyOn(r, d);
             out.status.Failed? && |r'.log| > |r.log| && r'.log[|r'.log| - 1] == Reload(false) && ReadsFine(r')
    ensures var r' := ApplyOn(r, d).0; ApplyOn(r', d).0.log == r'.log && ApplyOn(r', d).1.status.Applied?
  {
    var r1 := ReadThree(r.Read()).0;
    var b := Skeleton(r1, d);
    BuildUnderway(r1, d);
    if !SubnetStage(b, d).ok { LastIsPost(r1, d); }
    CompleteWhenOk(r1, d);
    SilentIffComplete(ApplyOn(r, d).0, d);
  }

  /** A successful write that no successful reload followed. */
  ghost predicate Unloaded(log: seq<Call>) {
    exists i :: 0 <= i < |log| && log[i].ok && !log[i].Reload? && Reload(true) !in log[i..]
  }

  lemma ReloadLoads(log: seq<Call>)
    requires log != [] && log[|log| - 1] == Reload(true)
    ensures !Unloaded(log)
  {
    forall i | 0 <= i < |log| ensures Reload(true) in log[i..] { assert log[i..][|log| - 1 - i] == Reload(true); }
  }

  /** With the lookup and the three listings readable, a successful build sends nothing exactly when nothing is
      missing and, if there are subnets, their listing can be read too. */
  lemma AppliedSilentIff(r: Remote, d: Defn)
    requires ApplyOn(r, d).1.status.Applied?
    ensures ApplyOn(r, d).0.log == r.log <==> Complete(r.cl, d) && (d.subnets == [] || r.fate(r.tick + 4).Fine())
  {
    var r1 := ReadThree(r.Read()).0;
    var b := Skeleton(r1, d);
    StagesGrow(r1, d);
    assert r1.tick == r.tick + 4 && r1.log == r.log && r1.cl == r.cl && r1.fate == r.fate;
    if Present(r.cl, d) {
      assert b == Build(r1, true, false, []);
      if d.subnets != [] {
        var have := if b.r.Now().Fine() then LiveNets(b.r.cl, d.name) else {};
        SubnetsSilentIff(b.(r := b.r.Read()), d.name, have, d.subnets, |d.subnets|);
        assert d.subnets[..|d.subnets|] == d.subnets;
        assert Canon(d.subnets[0].cidr) in NetsOf(d.subnets);
      }
    } else {
      assert |b.r.log| > |r1.log|;
      SubnetStageLog(b, d);
    }
  }

  /** A build that reports success leaves a write without a reload exactly when there was one before it, and it found
      nothing to do. */
  lemma AppliedLeavesUnloadedIff(r: Remote, d: Defn)
    requires ApplyOn(r, d).1.status.Applied?
    ensures Unloaded(ApplyOn(r, d).0.log)
            <==> Unloaded(r.log) && Complete(r.cl, d) && (d.subnets == [] || r.fate(r.tick + 4).Fine())
  {
    AppliedSilentIff(r, d);
    AppliedReloadsLast(r, d);
    var log := ApplyOn(r, d).0.log;
    if log != r.log {
      var sent := Since(r, log);
      assert log == r.log + sent;
      assert sent != [] && log[|log| - 1] == sent[|sent| - 1];
      ReloadLoads(log);
    }
  }

  /** A build that stopped before the reload stopped at a failed POST. */
  lemma LastIsPost(r: Remote, d: Defn)
    requires var b := SubnetStage(Skeleton(r, d), d); !b.ok
    ensures var b := SubnetStage(Skeleton(r, d), d);
            |b.r.log| > 0 && b.r.log[|b.r.log| - 1].Post?
  {
    var b := Skeleton(r, d);
    if b.ok {
      var have := if b.r.Now().Fine() then LiveNets(b.r.cl, d.name) else {};
      SubnetsStopAtPost(b.(r := b.r.Read()), d.name, have, d.subnets, |d.subnets|);
    }
  }

  lemma {:induction false} SubnetsStopAtPost(b: Build, name: Id, have: set<Cidr>, subs: seq<Subnet>, n: nat)
    requires n <= |subs| && b.ok && !EnsureSubnets(b, name, have, subs, n).ok
    ensures var e := EnsureSubnets(b, name, have, subs, n); |e.r.log| > 0 && e.r.log[|e.r.log| - 1].Post?
  {
    if !EnsureSubnets(b, name, have, subs, n - 1).ok { SubnetsStopAtPost(b, name, have, subs, n - 1); }
  }
}
