/** The rollback of a failed build: what it restores, and when the states it passes through are well-formed. */
module SdnRollback {
  import opened SdnTypes
  import opened SdnRemote
  import opened SdnBuild

  /** `b` is `a` without the deleted objects of the span. */
  ghost predicate Shrunk(a: Cluster, b: Cluster, d: Defn, deleted: seq<Kind>) {
    && b.ctrls == a.ctrls - (if KController in deleted then {d.ctrl} else {})
    && b.zones == a.zones - (if KZone in deleted then {d.zone} else {})
    && b.vnets == a.vnets - (if KVnet in deleted then {d.name} else {})
  }

  /** After `n` of the three labels exactly the deleted objects are gone, and only listed labels were deleted. */
  lemma TearSomeShrinks(r: Remote, created: seq<Kind>, d: Defn, n: nat)
    requires n <= 3
    ensures var t := TearSome(Torn(r, []), created, d, n);
            && Shrunk(r.cl, t.r.cl, d, t.deleted)
            && (forall k :: k in t.deleted ==> k in created && k in TEARDOWN_ORDER[..n])
            && t.r.fate == r.fate && t.r.tick >= r.tick
  {
    assert TEARDOWN_ORDER[..n] == if n == 0 then [] else if n == 1 then [KVnet]
                                  else if n == 2 then [KVnet, KZone] else TEARDOWN_ORDER;
    var t1 := TearOne(Torn(r, []), KVnet, created, d);
    var t2 := TearOne(t1, KZone, created, d);
    assert TearSome(Torn(r, []), created, d, 1) == t1;
    assert TearSome(Torn(r, []), created, d, 2) == t2;
    assert TearSome(Torn(r, []), created, d, 3) == TearOne(t2, KController, created, d);
  }

  lemma TeardownShrinks(r: Remote, d: Defn, created: seq<Kind>)
    ensures var t := Teardown(r, d, created);
            && Shrunk(r.cl, t.r.cl, d, t.deleted) && (forall k :: k in t.deleted ==> k in created)
            && t.r.fate == r.fate && t.r.tick > r.tick
  {
    TearSomeShrinks(r.Read(), created, d, 3);
  }

  // ---------------------------------------------------------------- which deletions go through

  /** Its place among the deletions. */
  function Place(kind: Kind): nat {
    match kind case KVnet => 0 case KZone => 1 case KController => 2 case KSubnet => 3
  }

  /** Which reply decides the deletion of a kind, counting from the first deletion. */
  function Turn(created: seq<Kind>, kind: Kind): nat {
    (if Place(kind) > 0 && KVnet in created then 1 else 0) + (if Place(kind) > 1 && KZone in created then 1 else 0)
  }

  /** Among the first `n` labels, the kind is listed and its deletion succeeds. */
  predicate Goes(r: Remote, created: seq<Kind>, n: nat, kind: Kind) {
    kind in created && Place(kind) < n <= 3 && r.fate(r.tick + Turn(created, kind)).Fine()
  }

  lemma TearSomeGoes(r: Remote, created: seq<Kind>, d: Defn, n: nat, kind: Kind)
    requires n <= 3
    ensures kind in TearSome(Torn(r, []), created, d, n).deleted <==> Goes(r, created, n, kind)
  {
    var t1 := TearOne(Torn(r, []), KVnet, created, d);
    var t2 := TearOne(t1, KZone, created, d);
    assert TearSome(Torn(r, []), created, d, 1) == t1;
    assert TearSome(Torn(r, []), created, d, 2) == t2;
    assert TearSome(Torn(r, []), created, d, 3) == TearOne(t2, KController, created, d);
    assert t1.r.tick == r.tick + Turn(created, KZone) && t2.r.tick == r.tick + Turn(created, KController);
  }

  function HowMany(created: seq<Kind>): nat { Turn(created, KController) + if KController in created then 1 else 0 }

  /** Nothing is to be deleted, or the lookup and every deletion succeed. */
  ghost predicate DeletesFine(r: Remote, created: seq<Kind>) {
    created == [] || forall k :: r.tick <= k <= r.tick + HowMany(created) ==> r.fate(k).Fine()
  }

  lemma AllDeletedIff(r: Remote, d: Defn, created: seq<Kind>)
    requires KSubnet !in created
    ensures (forall k :: k in created ==> k in Teardown(r, d, created).deleted) <==> DeletesFine(r, created)
  {
    var r1 := r.Read();
    forall k | k in created ensures k in TearSome(Torn(r1, []), created, d, 3).deleted <==> Goes(r1, created, 3, k) {
      TearSomeGoes(r1, created, d, 3, k);
    }
    if created != [] {
      assert created[0] in created;
      if !r.Now().Fine() {
        assert !DeletesFine(r, created);
      } else if forall k :: k in created ==> Goes(r1, created, 3, k) {
        forall k | r.tick <= k <= r.tick + HowMany(created) ensures r.fate(k).Fine() {
          if k > r.tick {
            var kind := KindAt(created, k - r.tick - 1);
            assert Goes(r1, created, 3, kind);
          }
        }
      } else {
        var kind :| kind in created && !Goes(r1, created, 3, kind);
        var k := r1.tick + Turn(created, kind);
        assert Place(kind) < 3 && r.tick <= k <= r.tick + HowMany(created) && !r.fate(k).Fine();
      }
    }
  }

  /** Whose deletion is the `n`th. */
  lemma KindAt(created: seq<Kind>, n: nat) returns (kind: Kind)
    requires n < HowMany(created)
    ensures kind in created && Place(kind) < 3 && Turn(created, kind) == n
  {
    if KVnet in created && n == 0 {
      kind := KVnet;
    } else if KZone in created && n == Turn(created, KZone) {
      kind := KZone;
    } else {
      kind := KController;
    }
  }

  // ---------------------------------------------------------------- what a rollback restores

  lemma Leftover(a: Cluster, m: Cluster, b: Cluster, d: Defn, created: seq<Kind>, deleted: seq<Kind>, k: Kind)
    requires Grown(a, m, d, created) && Shrunk(m, b, d, deleted) && k in created && k !in deleted
    ensures !(a.ctrls == b.ctrls && a.zones == b.zones && a.vnets.Keys == b.vnets.Keys)
  {
    match k
    case KController => assert d.ctrl in b.ctrls && d.ctrl !in a.ctrls;
    case KZone => assert d.zone in b.zones && d.zone !in a.zones;
    case KVnet => assert d.name in b.vnets && d.name !in a.vnets;
  }

  lemma AllDeleted(a: Cluster, m: Cluster, b: Cluster, d: Defn, created: seq<Kind>, deleted: seq<Kind>)
    requires Grown(a, m, d, created) && Shrunk(m, b, d, deleted)
    requires (forall k :: k in deleted ==> k in created) && (forall k :: k in created ==> k in deleted)
    ensures a.ctrls == b.ctrls && a.zones == b.zones && a.vnets.Keys == b.vnets.Keys
    ensures forall n :: n in a.vnets ==> Shell(a.vnets[n]) == Shell(b.vnets[n])
  {
  }

  lemma GrowShrink(a: Cluster, m: Cluster, b: Cluster, d: Defn, created: seq<Kind>, deleted: seq<Kind>)
    requires Grown(a, m, d, created) && Shrunk(m, b, d, deleted) && forall k :: k in deleted ==> k in created
    ensures Infra(b) == Infra(a) <==> forall k :: k in created ==> k in deleted
  {
    if forall k :: k in created ==> k in deleted {
      AllDeleted(a, m, b, d, created, deleted);
      ShellsAgree(b, a);
    } else {
      var k :| k in created && k !in deleted;
      Leftover(a, m, b, d, created, deleted, k);
      if Infra(b) == Infra(a) { SameInfraSameKeys(b, a); }
    }
  }

  lemma GrowShrinkWhole(a: Cluster, m: Cluster, b: Cluster, d: Defn, created: seq<Kind>, deleted: seq<Kind>)
    requires Grown(a, m, d, created) && Shrunk(m, b, d, deleted) && forall k :: k in deleted ==> k in created
    ensures b == a <==> (forall k :: k in created ==> k in deleted) &&
                        (KVnet in created || SubnetsOf(m, d.name) == SubnetsOf(a, d.name))
  {
    GrowShrink(a, m, b, d, created, deleted);
    if forall k :: k in created ==> k in deleted {
      if KVnet !in created {
        assert b.vnets == m.vnets;
        if d.name in a.vnets { assert m.vnets[d.name] == Shell(a.vnets[d.name]).(subnets := SubnetsOf(m, d.name)); }
      }
      assert b.vnets.Keys == a.vnets.Keys;
    }
  }

  /** Rolling back a build restores the cluster's controllers, zones and vnets exactly when the build created nothing
      or the lookup and every deletion of the rollback succeed. */
  lemma RollbackExact(r: Remote, d: Defn)
    ensures var (r1, out) := ApplyOn(r, d);
            Infra(Teardown(r1, d, out.created).r.cl) == Infra(r.cl) <==> DeletesFine(r1, out.created)
  {
    var (r1, out) := ApplyOn(r, d);
    var t := Teardown(r1, d, out.created);
    ApplyGrows(r, d);
    TeardownShrinks(r1, d, out.created);
    GrowShrink(r.cl, r1.cl, t.r.cl, d, out.created, t.deleted);
    AllDeletedIff(r1, d, out.created);
  }

  /** A successful POST of a subnet is in the log exactly when the subnets of the vnet changed. */
  lemma {:induction false} SubnetsChangedIff(b: Build, name: Id, have: set<Cidr>, subs: seq<Subnet>, n: nat)
    requires n <= |subs|
    ensures var e := EnsureSubnets(b, name, have, subs, n);
            && b.r.log <= e.r.log && SubnetsOf(b.r.cl, name) <= SubnetsOf(e.r.cl, name)
            && (SubnetsOf(e.r.cl, name) == SubnetsOf(b.r.cl, name) <==> Post(KSubnet, true) !in Since(b.r, e.r.log))
  {
    if n > 0 {
      SubnetsChangedIff(b, name, have, subs, n - 1);
      var e0 := EnsureSubnets(b, name, have, subs, n - 1);
      OneSubnet(e0, name, have, subs[n - 1]);
      var e := EnsureSubnets(b, name, have, subs, n);
      assert Since(b.r, e.r.log) == Since(b.r, e0.r.log) + Since(e0.r, e.r.log);
    }
  }

  lemma OneSubnet(b: Build, name: Id, have: set<Cidr>, s: Subnet)
    ensures var e := EnsureSubnet(b, name, have, s);
            && b.r.log <= e.r.log && SubnetsOf(b.r.cl, name) <= SubnetsOf(e.r.cl, name)
            && (SubnetsOf(e.r.cl, name) == SubnetsOf(b.r.cl, name) <==> Post(KSubnet, true) !in Since(b.r, e.r.log))
  {
    if b.ok && Canon(s.cidr) !in have {
      var call := Post(KSubnet, TakesSubnet(b.r, name, s));
      assert Since(b.r, b.r.log + [call]) == [call];
      assert |SubnetsOf(b.r.cl, name) + [LiveOf(s)]| > |SubnetsOf(b.r.cl, name)|;
    } else {
      assert Since(b.r, b.r.log) == [];
    }
  }

  /** A stage that posts something other than a subnet. */
  lemma EnsurePosts(r: Remote, b: Build, kind: Kind, have: bool, after: Cluster)
    requires kind != KSubnet && r.log <= b.r.log && Post(KSubnet, true) !in Since(r, b.r.log)
    ensures var e := Ensure(b, kind, have, after);
            && r.log <= e.r.log && Post(KSubnet, true) !in Since(r, e.r.log)
            && (kind !in e.created ==> e.r.cl == b.r.cl)
            && (forall k :: k in b.created ==> k in e.created)
  {
  }

  lemma SkeletonPosts(r: Remote, d: Defn)
    ensures var b := Skeleton(r, d); r.log <= b.r.log && Post(KSubnet, true) !in Since(r, b.r.log)
    ensures KVnet !in Skeleton(r, d).created ==> Skeleton(r, d).r.cl.vnets == r.cl.vnets
  {
    var b0 := Build(r, true, false, []);
    var b1 := CtrlStage(b0, d);
    var b2 := ZoneStage(b1, d);
    EnsurePosts(r, b0, KController, d.ctrl in r.cl.ctrls, AddCtrl(r.cl, d));
    EnsurePosts(r, b1, KZone, d.zone in b1.r.cl.zones, AddZone(b1.r.cl, d));
    EnsurePosts(r, b2, KVnet, d.name in b2.r.cl.vnets, AddVnet(b2.r.cl, d));
  }

  lemma SinceChain(a: Remote, b: Remote, log: seq<Call>, call: Call)
    requires a.log <= b.log <= log
    ensures call in Since(a, log) <==> call in Since(a, b.log) || call in Since(b, log)
  {
    assert Since(a, log) == Since(a, b.log) + Since(b, log);
  }

  lemma ReloadStagePosts(b: Build)
    ensures b.r.log <= ReloadStage(b).r.log && Post(KSubnet, true) !in Since(b.r, ReloadStage(b).r.log)
    ensures ReloadStage(b).r.cl == b.r.cl && ReloadStage(b).created == b.created
  {
  }

  lemma BuildPosts(r: Remote, d: Defn)
    ensures var e := BuildFrom(r, d);
            && r.log <= e.r.log
            && (KVnet !in e.created ==>
                  (SubnetsOf(e.r.cl, d.name) == SubnetsOf(r.cl, d.name) <==> Post(KSubnet, true) !in Since(r, e.r.log)))
  {
    var b := Skeleton(r, d);
    var e := SubnetStage(b, d);
    SkeletonPosts(r, d);
    SubnetStagePosts(b, d);
    ReloadStagePosts(e);
    SinceChain(r, b.r, e.r.log, Post(KSubnet, true));
    SinceChain(r, e.r, ReloadStage(e).r.log, Post(KSubnet, true));
  }

  /** On a vnet the build did not create, the subnets changed exactly when a POST of one succeeded. */
  lemma AddedSubnetsIff(r: Remote, d: Defn)
    ensures var (r1, out) := ApplyOn(r, d);
            && r.log <= r1.log
            && (KVnet !in out.created ==>
                  (SubnetsOf(r1.cl, d.name) == SubnetsOf(r.cl, d.name) <==> Post(KSubnet, true) !in Since(r, r1.log)))
  {
    if r.Now().Fine() && ReadThree(r.Read()).1 {
      BuildPosts(ReadThree(r.Read()).0, d);
    } else {
      assert Since(r, r.log) == [];
    }
  }

  lemma SubnetStagePosts(b: Build, d: Defn)
    ensures var e := SubnetStage(b, d);
            && b.r.log <= e.r.log && e.created == b.created
            && (SubnetsOf(e.r.cl, d.name) == SubnetsOf(b.r.cl, d.name) <==> Post(KSubnet, true) !in Since(b.r, e.r.log))
  {
    if b.ok && d.subnets != [] {
      var have := if b.r.Now().Fine() then LiveNets(b.r.cl, d.name) else {};
      SubnetsChangedIff(b.(r := b.r.Read()), d.name, have, d.subnets, |d.subnets|);
      EnsureSubnetsFrame(b.(r := b.r.Read()), d.name, have, d.subnets, |d.subnets|);
    } else {
      assert Since(b.r, b.r.log) == [];
    }
  }

  /** Subnets are not tracked: the whole cluster is restored exactly when, besides, the vnet was created by the build
      or no POST of a subnet succeeded. */
  lemma RollbackRestoresSubnets(r: Remote, d: Defn)
    ensures var (r1, out) := ApplyOn(r, d);
            && r.log <= r1.log
            && (Teardown(r1, d, out.created).r.cl == r.cl
                <==> DeletesFine(r1, out.created) && (KVnet in out.created || Post(KSubnet, true) !in Since(r, r1.log)))
  {
    var (r1, out) := ApplyOn(r, d);
    var t := Teardown(r1, d, out.created);
    ApplyGrows(r, d);
    TeardownShrinks(r1, d, out.created);
    GrowShrinkWhole(r.cl, r1.cl, t.r.cl, d, out.created, t.deleted);
    AllDeletedIff(r1, d, out.created);
    AddedSubnetsIff(r, d);
  }

  // ---------------------------------------------------------------- dependency order

  /** A deletion among the first `n` failed, and the one after it took away what its object depends on. */
  predicate Orphans(r: Remote, created: seq<Kind>, n: nat) {
    || (KVnet in created && !Goes(r, created, n, KVnet) && Goes(r, created, n, KZone))
    || (KZone in created && !Goes(r, created, n, KZone) && Goes(r, created, n, KController))
  }

  lemma ApplyKeepsClosed(r: Remote, d: Defn)
    requires Closed(r.cl)
    ensures Closed(ApplyOn(r, d).0.cl)
  {
    ApplyGrows(r, d);
    var (r1, out) := ApplyOn(r, d);
    if r.Now().Fine() && ReadThree(r.Read()).1 { StagesInOrder(ReadThree(r.Read()).0, d); }
    forall n | n in r1.cl.vnets ensures r1.cl.vnets[n].zone == "" || r1.cl.vnets[n].zone in r1.cl.zones {
      assert Shell(r1.cl.vnets[n]).zone == r1.cl.vnets[n].zone;
      assert n in r.cl.vnets ==> Shell(r.cl.vnets[n]).zone == r.cl.vnets[n].zone;
    }
  }

  /** A vnet is created only where its zone exists, a zone only where its controller does. */
  lemma StagesInOrder(r: Remote, d: Defn)
    ensures var out := BuildFrom(r, d);
            && (KVnet in out.created ==> d.zone in r.cl.zones || KZone in out.created)
            && (KZone in out.created ==> d.ctrl in r.cl.ctrls || KController in out.created)
  {
    StagesGrow(r, d);
    SubnetStageGrows(Skeleton(r, d), d, r.cl);
  }

  /** Rolling back on a cluster whose references were closed: after each of the three deletions they are closed
      exactly when no reply so far let a deletion fail and the next one take away what its object depends on. */
  lemma RollbackClosedIff(r: Remote, d: Defn, n: nat)
    requires Closed(r.cl) && ValidDefn(d) && n <= 3
    ensures var (r1, out) := ApplyOn(r, d);
            Closed(TearSome(Torn(r1.Read(), []), out.created, d, n).r.cl) <==> !Orphans(r1.Read(), out.created, n)
  {
    ApplyGrows(r, d);
    ApplyKeepsClosed(r, d);
    var (r1, out) := ApplyOn(r, d);
    TearSomeShrinks(r1.Read(), out.created, d, n);
    TearSomeGoes(r1.Read(), out.created, d, n, KVnet);
    TearSomeGoes(r1.Read(), out.created, d, n, KZone);
    TearSomeGoes(r1.Read(), out.created, d, n, KController);
    ClosedIff(r.cl, r1.cl, d, out.created, TearSome(Torn(r1.Read(), []), out.created, d, n));
  }

  lemma ClosedIff(a: Cluster, m: Cluster, d: Defn, created: seq<Kind>, t: Torn)
    requires Grown(a, m, d, created) && Closed(a) && Closed(m) && ValidDefn(d)
    requires Shrunk(m, t.r.cl, d, t.deleted) && forall k :: k in t.deleted ==> k in created
    ensures Closed(t.r.cl) <==> !(KVnet in created && KVnet !in t.deleted && KZone in t.deleted)
                                && !(KZone in created && KZone !in t.deleted && KController in t.deleted)
  {
    var cl := t.r.cl;
    if KVnet in created && KVnet !in t.deleted {
      assert Shell(m.vnets[d.name]).zone == d.zone;
      assert d.name in cl.vnets && cl.vnets[d.name].zone == d.zone;
    }
    if KZone in created && KZone !in t.deleted { assert d.zone in cl.zones && cl.zones[d.zone].ctrl == d.ctrl; }
    forall v | v in cl.vnets && v in a.vnets ensures cl.vnets[v].zone == a.vnets[v].zone {
      assert Shell(cl.vnets[v]).zone == cl.vnets[v].zone && Shell(a.vnets[v]).zone == a.vnets[v].zone;
    }
  }

  // ---------------------------------------------------------------- the calls of a teardown

  /** A teardown that reaches its cluster sends a deletion for each listed kind and then a reload, whatever fails. */
  lemma TeardownCalls(r: Remote, d: Defn, created: seq<Kind>)
    ensures var log := Teardown(r, d, created).r.log;
            && r.log <= log
            && if !r.Now().Fine() then log == r.log
               else
                 var sent := Since(r, log);
                 && |sent| == HowMany(created) + 1 && sent[|sent| - 1].Reload?
                 && forall i :: 0 <= i < |sent| - 1 ==> sent[i].Delete? && sent[i].kind in created
  {
    if r.Now().Fine() {
      var t0 := Torn(r.Read(), []);
      var t1 := TearOne(t0, KVnet, created, d);
      var t2 := TearOne(t1, KZone, created, d);
      var t3 := TearOne(t2, KController, created, d);
      assert TearSome(t0, created, d, 1) == t1;
      assert TearSome(t0, created, d, 2) == t2;
      assert TearSome(t0, created, d, 3) == t3;
      OneDeletion(r, t0, KVnet, created, d);
      OneDeletion(r, t1, KZone, created, d);
      OneDeletion(r, t2, KController, created, d);
      var reload := Reload(t3.r.Now().Fine());
      assert Since(r, t3.r.log + [reload]) == Since(r, t3.r.log) + [reload];
    }
  }

  lemma OneDeletion(r: Remote, t: Torn, kind: Kind, created: seq<Kind>, d: Defn)
    requires r.log <= t.r.log && forall c :: c in Since(r, t.r.log) ==> c.Delete? && c.kind in created
    ensures var u := TearOne(t, kind, created, d);
            && r.log <= u.r.log && (forall c :: c in Since(r, u.r.log) ==> c.Delete? && c.kind in created)
            && |Since(r, u.r.log)| == |Since(r, t.r.log)| + if kind in created then 1 else 0
  {
    if kind in created {
      var call := Delete(kind, t.r.Now().Fine());
      assert Since(r, t.r.log + [call]) == Since(r, t.r.log) + [call];
    }
  }
}
