/** Re-asserting a span on one member, against what the live scan reports about it. */
module SdnReconcile {
  import opened SdnTypes
  import opened SdnRemote
  import opened SdnBuild

  /** No existing controller or zone differs, and no existing vnet changed its zone or its tag. */
  ghost predicate SameStructure(a: Cluster, b: Cluster) {
    && (forall k :: k in a.ctrls ==> k in b.ctrls && b.ctrls[k] == a.ctrls[k])
    && (forall k :: k in a.zones ==> k in b.zones && b.zones[k] == a.zones[k])
    && (forall k :: k in a.vnets ==>
          k in b.vnets && b.vnets[k].zone == a.vnets[k].zone && b.vnets[k].tag == a.vnets[k].tag)
  }

  lemma GrownSameStructure(a: Cluster, b: Cluster, d: Defn, created: seq<Kind>)
    requires Grown(a, b, d, created)
    ensures SameStructure(a, b)
  {
    forall k | k in a.vnets
      ensures k in b.vnets && b.vnets[k].zone == a.vnets[k].zone && b.vnets[k].tag == a.vnets[k].tag
    {
      if k == d.name { assert Shell(b.vnets[k]).zone == b.vnets[k].zone && Shell(b.vnets[k]).tag == b.vnets[k].tag; }
    }
  }

  /** A reconcile is a build, then reads, then at most the alias of the span's vnet. */
  lemma ReconcileShape(r: Remote, d: Defn)
    ensures var (r1, out) := ApplyOn(r, d); var (r', out') := ReconcileOn(r, d);
            && out' == out && r'.fate == r.fate && r'.tick >= r1.tick
            && (r'.cl == r1.cl || (d.name in r1.cl.vnets && r'.cl == SetAlias(r1.cl, d.name, d.alias)))
  {
    ApplyGrows(r, d);
  }

  /** Whatever fails, a reconcile never changes the zone or tag of an existing vnet, nor a zone or controller. */
  lemma ReconcileKeepsStructure(r: Remote, d: Defn)
    ensures SameStructure(r.cl, ReconcileOn(r, d).0.cl)
  {
    ReconcileShape(r, d);
    ApplyGrows(r, d);
    GrownSameStructure(r.cl, ApplyOn(r, d).0.cl, d, ApplyOn(r, d).1.created);
  }

  lemma ReconcileKeepsBuilt(r: Remote, d: Defn, other: Defn)
    requires Built(r.cl, other)
    ensures Built(ReconcileOn(r, d).0.cl, other)
  {
    ReconcileKeepsStructure(r, d);
  }

  lemma ReconcileKeepsVnis(r: Remote, d: Defn)
    requires DistinctVnis(r.cl) && (d.name in r.cl.vnets || !Collides(r.cl, d))
    ensures DistinctVnis(ReconcileOn(r, d).0.cl)
  {
    ApplyKeepsVnis(r, d);
    ReconcileShape(r, d);
  }

  // ---------------------------------------------------------------- convergence

  lemma {:induction false} GoodSubnets(b: Build, name: Id, have: set<Cidr>, subs: seq<Subnet>, n: nat)
    requires n <= |subs| && b.ok && AllGood(b.r) && name in b.r.cl.vnets
    ensures EnsureSubnets(b, name, have, subs, n).ok
  {
    if n > 0 {
      EnsureSubnetsFrame(b, name, have, subs, n - 1);
      GoodSubnets(b, name, have, subs, n - 1);
    }
  }

  /** When every reply is good, a build succeeds. */
  lemma GoodBuildApplies(r: Remote, d: Defn)
    requires AllGood(r)
    ensures ApplyOn(r, d).1.status == Applied
  {
    var r1 := ReadThree(r.Read()).0;
    assert ReadThree(r.Read()).1;
    var b := Skeleton(r1, d);
    StagesGrow(r1, d);
    assert b.ok;
    SubnetStageGrows(b, d, r.cl);
    if d.subnets != [] {
      GoodSubnets(b.(r := b.r.Read()), d.name, LiveNets(b.r.cl, d.name), d.subnets, |d.subnets|);
    }
  }

  /** A failure-free reconcile ends in a state the scan calls in_sync exactly when the vnet was missing or had
      the recorded zone and tag; in the remaining case, structural drift, the scan still reports drift. */
  lemma ReconcileConverges(r: Remote, d: Defn)
    requires AllGood(r)
    ensures var (r', out) := ReconcileOn(r, d);
            && out.status == Applied
            && var fits := d.name in r.cl.vnets ==> VnetFits(r.cl.vnets[d.name], d);
               LiveStatusOn(r', d).1 == if fits then InSync else Drift
  {
    GoodBuildApplies(r, d);
    ApplyGrows(r, d);
    ReconcileShape(r, d);
    ReconcileKeepsStructure(r, d);
    var r1 := ApplyOn(r, d).0;
    var r' := ReconcileOn(r, d).0;
    assert r'.cl == RealignAlias(r1.Read().Read(), d).cl;
    assert d.name in r'.cl.vnets && r'.cl.vnets[d.name].alias == d.alias;
    if d.name !in r.cl.vnets {
      assert Shell(r1.cl.vnets[d.name]) == VnetOf(d);
      assert Shell(r1.cl.vnets[d.name]).zone == d.zone && Shell(r1.cl.vnets[d.name]).tag == d.vni;
    }
  }

  /** After the build, a reconcile sends nothing, or a PUT of the alias that fails, or one that succeeds and then a
      reload; and nothing at all if the build failed. */
  lemma ReconcileCalls(r: Remote, d: Defn)
    ensures var (r1, out) := ApplyOn(r, d); var r2 := ReconcileOn(r, d).0;
            && r1.log <= r2.log
            && var sent := Since(r1, r2.log);
               && (sent == [] || sent == [Put(false)] || sent == [Put(true), Reload(true)]
                    || sent == [Put(true), Reload(false)])
               && (!out.status.Applied? ==> r2 == r1)
  {
    var r1 := ApplyOn(r, d).0;
    var r2 := ReconcileOn(r, d).0;
    assert r2.log == r1.log || r2.log == r1.log + [Put(false)] || r2.log == r1.log + [Put(true)] + [Reload(true)]
           || r2.log == r1.log + [Put(true)] + [Reload(false)];
  }
}
