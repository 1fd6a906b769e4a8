/** The per-cluster routines as they run: one manager object per cluster, whose remote state each call changes in
    place. Every routine is proved to do exactly what its function on `Remote` says. */
module SdnManager {
  import opened Wrappers
  import opened SdnTypes
  import opened SdnRemote
  import opened SdnEdit

  datatype Conflict = CtrlDiffers | ZoneDiffers | VnetDiffers | VniTaken(user: Id)

  class Manager {
    const fate: nat -> Reply
    var cl: Cluster
    var tick: nat
    var log: seq<Call>

    ghost function View(): Remote
      reads this
    {
      Remote(cl, fate, tick, log)
    }

    constructor (cl: Cluster, fate: nat -> Reply)
      ensures View() == Remote(cl, fate, 0, [])
    {
      this.cl, this.fate, tick, log := cl, fate, 0, [];
    }

    // -------------------------------------------------------------- single calls

    method Resolve() returns (reason: Option<Status>)
      modifies this
      ensures View() == old(View()).Read() && reason == Reason(old(View()).Now())
    {
      reason := Reason(fate(tick));
      tick := tick + 1;
    }

    method List() returns (reply: Reply)
      modifies this
      ensures View() == old(View()).Read() && reply == old(View()).Now()
    {
      reply := fate(tick);
      tick := tick + 1;
    }

    /** A write that the cluster carries out (`after`) or refuses. */
    method Send(call: bool -> Call, accepts: bool, after: Cluster) returns (ok: bool)
      modifies this
      ensures ok == accepts
      ensures View() == old(View()).Wrote(call(ok), if ok then after else old(cl))
    {
      ok := accepts;
      tick, log := tick + 1, log + [call(ok)];
      if ok { cl := after; }
    }

    method Post(kind: Kind, after: Cluster) returns (ok: bool)
      modifies this
      ensures ok == old(View()).Now().Fine()
      ensures View() == old(View()).Wrote(SdnRemote.Post(kind, ok), if ok then after else old(cl))
    {
      ok := Send(x => SdnRemote.Post(kind, x), fate(tick).Fine(), after);
    }

    method PostSubnetTo(name: Id, s: Subnet) returns (ok: bool, there: bool)
      modifies this
      ensures ok == TakesSubnet(old(View()), name, s)
      ensures there == (old(View()).Now().Exists? && name in old(cl).vnets)
      ensures View() == PostSubnet(old(View()), name, s)
    {
      there := fate(tick).Exists? && name in cl.vnets;
      ok := name in cl.vnets && (fate(tick).Good? || (fate(tick).Exists? && Canon(s.cidr) !in LiveNets(cl, name)));
      ok := Send(x => SdnRemote.Post(KSubnet, x), ok, SetSubnets(cl, name, SubnetsOf(cl, name) + [LiveOf(s)]));
    }

    method Remove(kind: Kind, after: Cluster) returns (ok: bool)
      modifies this
      ensures ok == old(View()).Now().Fine()
      ensures View() == old(View()).Wrote(Delete(kind, ok), if ok then after else old(cl))
    {
      ok := Send(x => Delete(kind, x), fate(tick).Fine(), after);
    }

    method PutAliasOn(name: Id, alias: string) returns (ok: bool)
      modifies this
      ensures (View(), ok) == PutAlias(old(View()), name, alias)
    {
      ok := Send(x => Put(x), fate(tick).Fine() && name in cl.vnets, SetAlias(cl, name, alias));
    }

    method ReloadAll() returns (ok: bool)
      modifies this
      ensures ok == old(View()).Now().Fine()
      ensures View() == old(View()).Wrote(Reload(ok), old(cl))
    {
      ok := Send(x => Reload(x), fate(tick).Fine(), cl);
    }

    method ReadThreeLists() returns (ok: bool)
      modifies this
      ensures (View(), ok) == ReadThree(old(View()))
    {
      var reply := List();
      if !reply.Fine() { return false; }
      reply := List();
      if !reply.Fine() { return false; }
      reply := List();
      ok := reply.Fine();
    }

    // -------------------------------------------------------------- collision pre-flight

    /** The conflicts found; there are none exactly when nothing collides. */
    method Collisions(d: Defn) returns (conflicts: seq<Conflict>)
      ensures CtrlDiffers in conflicts <==> d.ctrl in cl.ctrls && !CtrlFits(cl.ctrls[d.ctrl], d)
      ensures ZoneDiffers in conflicts <==> d.zone in cl.zones && !ZoneFits(cl.zones[d.zone], d)
      ensures VnetDiffers in conflicts <==> d.name in cl.vnets && !VnetFits(cl.vnets[d.name], d)
      ensures forall n :: VniTaken(n) in conflicts <==>
                n in cl.vnets && n != d.name && cl.vnets[n].tag != 0 && cl.vnets[n].tag == d.vni
      ensures CtrlDiffers in conflicts <==>
                d.ctrl in cl.ctrls && (!cl.ctrls[d.ctrl].evpn || cl.ctrls[d.ctrl].asn != d.asn)
      ensures ZoneDiffers in conflicts <==>
                d.zone in cl.zones && (!cl.zones[d.zone].evpn || cl.zones[d.zone].ctrl !in ["", d.ctrl]
                                       || cl.zones[d.zone].vrf !in [0, d.vrf])
      ensures VnetDiffers in conflicts <==>
                d.name in cl.vnets && (cl.vnets[d.name].zone !in ["", d.zone] || cl.vnets[d.name].tag !in [0, d.vni])
      ensures conflicts == [] <==> !Collides(cl, d)
    {
      conflicts := [];
      if d.ctrl in cl.ctrls && !CtrlFits(cl.ctrls[d.ctrl], d) { conflicts := conflicts + [CtrlDiffers]; }
      if d.zone in cl.zones && !ZoneFits(cl.zones[d.zone], d) { conflicts := conflicts + [ZoneDiffers]; }
      var todo := cl.vnets.Keys;
      while todo != {}
        invariant todo <= cl.vnets.Keys
        invariant CtrlDiffers in conflicts <==> d.ctrl in cl.ctrls && !CtrlFits(cl.ctrls[d.ctrl], d)
        invariant ZoneDiffers in conflicts <==> d.zone in cl.zones && !ZoneFits(cl.zones[d.zone], d)
        invariant VnetDiffers in conflicts <==> d.name in cl.vnets - todo && !VnetFits(cl.vnets[d.name], d)
        invariant forall n :: VniTaken(n) in conflicts <==>
                              n in cl.vnets - todo && n != d.name && cl.vnets[n].tag != 0 && cl.vnets[n].tag == d.vni
        decreases todo
      {
        var n :| n in todo;
        var v := cl.vnets[n];
        if n == d.name {
          if !VnetFits(v, d) { conflicts := conflicts + [VnetDiffers]; }
        } else if v.tag != 0 && v.tag == d.vni {
          conflicts := conflicts + [VniTaken(n)];
        }
        todo := todo - {n};
      }
      if conflicts != [] {
        assert conflicts[0] in conflicts;
        assert conflicts[0].VniTaken? ==> VniTaken(conflicts[0].user) in conflicts;
      } else {
        assert forall n :: n in cl.vnets && n != d.name && cl.vnets[n].tag != 0 && cl.vnets[n].tag == d.vni ==>
                 VniTaken(n) in conflicts;
      }
    }

    method PreflightOnCluster(d: Defn) returns (verdict: Verdict)
      modifies this
      ensures (View(), verdict) == PreflightOn(old(View()), d)
    {
      var reason := Resolve();
      if reason.Some? { return Unreachable; }
      var ok := ReadThreeLists();
      if !ok { return ReadFailed; }
      var conflicts := Collisions(d);
      verdict := if conflicts == [] then Clear else Conflicting;
    }

    // -------------------------------------------------------------- build

    method ApplyOnCluster(d: Defn) returns (out: Outcome)
      modifies this
      ensures (View(), out) == ApplyOn(old(View()), d)
    {
      var reason := Resolve();
      if reason.Some? { return Outcome(reason.value, []); }
      var ok := ReadThreeLists();
      if !ok { return Outcome(Failed, []); }
      ghost var r := View();
      var changed, created;
      ok, changed, created := BuildSkeleton(d);
      if !ok { return Outcome(Failed, created); }
      ok, changed := BuildSubnets(d, changed, created);
      if !ok { return Outcome(Failed, created); }
      if changed {
        ok := ReloadAll();
        if !ok { return Outcome(Failed, created); }
      }
      out := Outcome(Applied, created);
    }

    method BuildSkeleton(d: Defn) returns (ok: bool, changed: bool, created: seq<Kind>)
      modifies this
      ensures Build(View(), ok, changed, created) == Skeleton(old(View()), d)
    {
      var haveCtrl, haveZone, haveVnet := d.ctrl in cl.ctrls, d.zone in cl.zones, d.name in cl.vnets;
      ok, changed, created := true, false, [];
      if !haveCtrl {
        ok := Post(KController, AddCtrl(cl, d));
        if !ok { return; }
        changed, created := true, created + [KController];
      }
      if !haveZone {
        ok := Post(KZone, AddZone(cl, d));
        if !ok { return; }
        changed, created := true, created + [KZone];
      }
      if !haveVnet {
        ok := Post(KVnet, AddVnet(cl, d));
        if !ok { return; }
        changed, created := true, created + [KVnet];
      }
    }

    method BuildSubnets(d: Defn, wasChanged: bool, ghost created: seq<Kind>) returns (ok: bool, changed: bool)
      modifies this
      ensures Build(View(), ok, changed, created) == SubnetStage(Build(old(View()), true, wasChanged, created), d)
    {
      ok, changed := true, wasChanged;
      if d.subnets == [] { return; }
      var have := LiveNets(cl, d.name);
      var reply := List();
      if !reply.Fine() { have := {}; }
      ghost var b := Build(View(), true, wasChanged, created);
      for i := 0 to |d.subnets|
        invariant ok && Build(View(), ok, changed, created) == EnsureSubnets(b, d.name, have, d.subnets, i)
      {
        var s := d.subnets[i];
        if Canon(s.cidr) !in have {
          var there;
          ok, there := PostSubnetTo(d.name, s);
          if !ok {
            StaysFailed(b, d.name, have, d.subnets, i + 1, |d.subnets|);
            return;
          }
          changed := true;
        }
      }
    }

    // -------------------------------------------------------------- teardown

    method TeardownCreated(d: Defn, created: seq<Kind>) returns (deleted: seq<Kind>)
      modifies this
      ensures Torn(View(), deleted) == Teardown(old(View()), d, created)
    {
      deleted := [];
      var reason := Resolve();
      if reason.Some? { return; }
      ghost var t := Torn(View(), []);
      for i := 0 to 3
        invariant Torn(View(), deleted) == TearSome(t, created, d, i)
      {
        var kind := TEARDOWN_ORDER[i];
        if kind in created {
          var ok := Remove(kind, Drop(cl, kind, d));
          if ok { deleted := deleted + [kind]; }
        }
      }
      var _ := ReloadAll();
    }

    // -------------------------------------------------------------- edit

    method EditOnCluster(name: Id, ch: Changes) returns (status: Status)
      modifies this
      ensures (View(), status) == EditOn(old(View()), name, ch)
    {
      var reason := Resolve();
      if reason.Some? { return reason.value; }
      var changed, ok := false, true;
      if ch.alias.Some? {
        ok := PutAliasOn(name, ch.alias.value);
        if !ok {
          AddsStayFailed(Build(View(), false, false, []), name, ch.adds, 0, |ch.adds|);
          return Failed;
        }
        changed := true;
      }
      ok, changed := PostAll(name, ch.adds, changed);
      if !ok { return Failed; }
      if ch.dels != [] { changed := DeleteListed(name, ch.dels, changed); }
      if changed {
        ok := ReloadAll();
        if !ok { return Failed; }
      }
      status := Applied;
    }

    method PostAll(name: Id, adds: seq<Subnet>, wasChanged: bool) returns (ok: bool, changed: bool)
      modifies this
      ensures Build(View(), ok, changed, []) == AddSubnets(Build(old(View()), true, wasChanged, []), name, adds, |adds|)
    {
      ok, changed := true, wasChanged;
      ghost var b := Build(View(), true, wasChanged, []);
      for i := 0 to |adds|
        invariant ok && Build(View(), ok, changed, []) == AddSubnets(b, name, adds, i)
      {
        var there;
        ok, there := PostSubnetTo(name, adds[i]);
        if !ok && there { ok := true; }
        if !ok {
          AddsStayFailed(b, name, adds, i + 1, |adds|);
          return;
        }
        changed := true;
      }
    }

    method DeleteListed(name: Id, dels: seq<Cidr>, wasChanged: bool) returns (changed: bool)
      requires dels != []
      modifies this
      ensures Build(View(), true, changed, []) == DeleteStage(Build(old(View()), true, wasChanged, []), name, dels)
    {
      var es := SubnetsOf(cl, name);
      var reply := List();
      if !reply.Fine() { es := []; }
      var want := CanonSet(dels);
      changed := wasChanged;
      var kept: seq<LiveSubnet> := [];
      ghost var s := Sweep(View(), [], wasChanged);
      for i := 0 to |es|
        invariant Sweep(View(), kept, changed) == SweepSome(s, name, es, want, i)
      {
        if Wanted(es[i], want) {
          kept := if fate(tick).Fine() then kept else kept + [es[i]];
          var _ := SendDelete(SetSubnets(cl, name, kept + es[i + 1..]));
          changed := true;
        } else {
          kept := kept + [es[i]];
        }
      }
    }

    method SendDelete(after: Cluster) returns (ok: bool)
      modifies this
      ensures ok == old(View()).Now().Fine()
      ensures View() == old(View()).Wrote(Delete(KSubnet, ok), after)
    {
      ok := fate(tick).Fine();
      tick, log, cl := tick + 1, log + [Delete(KSubnet, ok)], after;
    }

    // -------------------------------------------------------------- live status and reconcile

    method LiveStatusOnCluster(d: Defn) returns (status: Status)
      modifies this
      ensures (View(), status) == LiveStatusOn(old(View()), d)
    {
      var reason := Resolve();
      if reason.Some? { return reason.value; }
      var reply := List();
      if reply.Absent? { return SdnMissing; }
      if reply.Bad? { return Unreadable; }
      if d.name !in cl.vnets { return Missing; }
      var v := cl.vnets[d.name];
      var diffs := 0;
      if !(v.zone == "" || v.zone == d.zone) { diffs := diffs + 1; }
      if !(v.tag == 0 || v.tag == d.vni) { diffs := diffs + 1; }
      if v.alias != d.alias { diffs := diffs + 1; }
      status := if diffs > 0 then Drift else InSync;
    }

    method ReconcileOnCluster(d: Defn) returns (out: Outcome)
      modifies this
      ensures (View(), out) == ReconcileOn(old(View()), d)
    {
      out := ApplyOnCluster(d);
      if !out.status.Applied? { return; }
      var reason := Resolve();
      if reason.Some? { return; }
      var reply := List();
      if !reply.Fine() { return; }
      if d.name in cl.vnets && cl.vnets[d.name].alias != d.alias {
        var ok := PutAliasOn(d.name, d.alias);
        if ok { var _ := ReloadAll(); }
      }
    }
  }

  lemma {:induction false} StaysFailed(b: Build, name: Id, have: set<Cidr>, subs: seq<Subnet>, i: nat, n: nat)
    requires i <= n <= |subs| && !EnsureSubnets(b, name, have, subs, i).ok
    ensures EnsureSubnets(b, name, have, subs, n) == EnsureSubnets(b, name, have, subs, i)
  {
    if i < n { StaysFailed(b, name, have, subs, i, n - 1); }
  }

  lemma {:induction false} AddsStayFailed(b: Build, name: Id, adds: seq<Subnet>, i: nat, n: nat)
    requires i <= n <= |adds| && !AddSubnets(b, name, adds, i).ok
    ensures AddSubnets(b, name, adds, n) == AddSubnets(b, name, adds, i)
  {
    if i < n { AddsStayFailed(b, name, adds, i, n - 1); }
  }
}
