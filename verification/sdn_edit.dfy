/** Editing a span: the fan-out on one member against the subnet list the record ends up with. */
module SdnEdit {
  import opened Wrappers
  import opened SdnTypes
  import opened SdnRemote
  import opened SdnBuild

  // ---------------------------------------------------------------- the record

  /** The recorded subnets whose network is not to be deleted. */
  function Without(subs: seq<Subnet>, del: set<Cidr>): seq<Subnet> {
    if subs == [] then []
    else Without(subs[..|subs| - 1], del) + if Canon(subs[|subs| - 1].cidr) in del then [] else [subs[|subs| - 1]]
  }

  /** `subs` with each added subnet appended unless its network is already there. */
  function WithAdded(subs: seq<Subnet>, adds: seq<Subnet>, n: nat): seq<Subnet>
    requires n <= |adds|
  {
    if n == 0 then subs
    else
      var s := WithAdded(subs, adds, n - 1);
      if Canon(adds[n - 1].cidr) in NetsOf(s) then s else s + [adds[n - 1]]
  }

  function EditedSubnets(subs: seq<Subnet>, ch: Changes): seq<Subnet> {
    WithAdded(Without(subs, CanonSet(ch.dels)), ch.adds, |ch.adds|)
  }

  /** No network is recorded twice. */
  ghost predicate NetsDistinct(subs: seq<Subnet>) {
    forall i, j :: 0 <= i < j < |subs| ==> Canon(subs[i].cidr) != Canon(subs[j].cidr)
  }

  lemma NetsOfAppend(subs: seq<Subnet>, s: Subnet)
    ensures NetsOf(subs + [s]) == NetsOf(subs) + {Canon(s.cidr)}
  {
    forall x | x in NetsOf(subs) + {Canon(s.cidr)} ensures x in NetsOf(subs + [s]) {
      if x in NetsOf(subs) {
        var t :| t in subs && Canon(t.cidr) == x;
        assert t in subs + [s];
      } else {
        assert s in subs + [s];
      }
    }
  }

  lemma {:induction false} WithoutNets(subs: seq<Subnet>, del: set<Cidr>)
    ensures NetsOf(Without(subs, del)) == NetsOf(subs) - del
  {
    if subs != [] {
      var init, last := subs[..|subs| - 1], subs[|subs| - 1];
      assert subs == init + [last];
      WithoutNets(init, del);
      NetsOfAppend(init, last);
      NetsOfAppend(Without(init, del), last);
      assert Without(subs, del) == if Canon(last.cidr) in del then Without(init, del) else Without(init, del) + [last];
    }
  }

  lemma LastIsNew(init: seq<Subnet>, last: Subnet)
    requires NetsDistinct(init + [last])
    ensures NetsDistinct(init) && Canon(last.cidr) !in NetsOf(init)
  {
    var subs := init + [last];
    forall i, j | 0 <= i < j < |init| ensures Canon(init[i].cidr) != Canon(init[j].cidr) {
      assert subs[i] == init[i] && subs[j] == init[j];
    }
    assert subs[|init|] == last;
    forall s | s in init ensures Canon(s.cidr) != Canon(last.cidr) {
      var i :| 0 <= i < |init| && init[i] == s;
      assert subs[i] == s;
    }
  }

  lemma {:induction false} WithoutDistinct(subs: seq<Subnet>, del: set<Cidr>)
    requires NetsDistinct(subs)
    ensures NetsDistinct(Without(subs, del))
  {
    if subs != [] {
      var init, last := subs[..|subs| - 1], subs[|subs| - 1];
      assert subs == init + [last];
      LastIsNew(init, last);
      WithoutDistinct(init, del);
      WithoutNets(init, del);
      if Canon(last.cidr) !in del { DistinctAppend(Without(init, del), last); }
    }
  }

  lemma DistinctAppend(subs: seq<Subnet>, s: Subnet)
    requires NetsDistinct(subs) && Canon(s.cidr) !in NetsOf(subs)
    ensures NetsDistinct(subs + [s])
  {
    forall i | 0 <= i < |subs| ensures Canon(subs[i].cidr) != Canon(s.cidr) { assert subs[i] in subs; }
  }

  lemma {:induction false} WithAddedNets(subs: seq<Subnet>, adds: seq<Subnet>, n: nat)
    requires n <= |adds|
    ensures NetsOf(WithAdded(subs, adds, n)) == NetsOf(subs) + NetsOf(adds[..n])
    ensures NetsDistinct(subs) ==> NetsDistinct(WithAdded(subs, adds, n))
    ensures subs <= WithAdded(subs, adds, n)
  {
    if n > 0 {
      WithAddedNets(subs, adds, n - 1);
      var s, a := WithAdded(subs, adds, n - 1), adds[n - 1];
      assert adds[..n] == adds[..n - 1] + [a];
      NetsOfAppend(adds[..n - 1], a);
      NetsOfAppend(s, a);
      if NetsDistinct(s) && Canon(a.cidr) !in NetsOf(s) { DistinctAppend(s, a); }
    }
  }

  /** The recorded networks become (old minus deleted) plus added, and stay free of duplicates. */
  lemma RecordAfterEdit(subs: seq<Subnet>, ch: Changes)
    ensures NetsOf(EditedSubnets(subs, ch)) == (NetsOf(subs) - CanonSet(ch.dels)) + NetsOf(ch.adds)
    ensures NetsDistinct(subs) ==> NetsDistinct(EditedSubnets(subs, ch))
  {
    WithoutNets(subs, CanonSet(ch.dels));
    if NetsDistinct(subs) { WithoutDistinct(subs, CanonSet(ch.dels)); }
    WithAddedNets(Without(subs, CanonSet(ch.dels)), ch.adds, |ch.adds|);
    assert ch.adds[..|ch.adds|] == ch.adds;
  }

  /** Entry by entry: what is recorded afterwards was recorded before and is not to be deleted, or was asked for with
      this network, gateway and SNAT flag; what was recorded and is not to be deleted stays. */
  lemma RecordEntries(subs: seq<Subnet>, ch: Changes, e: Subnet)
    ensures e in EditedSubnets(subs, ch) ==> (e in subs && Canon(e.cidr) !in CanonSet(ch.dels)) || e in ch.adds
    ensures e in subs && Canon(e.cidr) !in CanonSet(ch.dels) ==> e in EditedSubnets(subs, ch)
  {
    WithoutEntries(subs, CanonSet(ch.dels), e);
    WithAddedEntries(Without(subs, CanonSet(ch.dels)), ch.adds, |ch.adds|, e);
  }

  lemma {:induction false} WithoutEntries(subs: seq<Subnet>, del: set<Cidr>, e: Subnet)
    ensures e in Without(subs, del) <==> e in subs && Canon(e.cidr) !in del
  {
    if subs != [] {
      WithoutEntries(subs[..|subs| - 1], del, e);
      assert subs == subs[..|subs| - 1] + [subs[|subs| - 1]];
    }
  }

  lemma {:induction false} WithAddedEntries(subs: seq<Subnet>, adds: seq<Subnet>, n: nat, e: Subnet)
    requires n <= |adds|
    ensures e in subs ==> e in WithAdded(subs, adds, n)
    ensures e in WithAdded(subs, adds, n) ==> e in subs || e in adds
  {
    if n > 0 { WithAddedEntries(subs, adds, n - 1, e); }
  }

  // ---------------------------------------------------------------- one member

  lemma NetsInAppend(xs: seq<LiveSubnet>, e: LiveSubnet)
    ensures NetsIn(xs + [e]) == NetsIn(xs) + (if e.cidr.Some? then {Canon(e.cidr.value)} else {})
  {
    forall c | c in NetsIn(xs) ensures c in NetsIn(xs + [e]) {
      var s :| s in xs && s.cidr.Some? && Canon(s.cidr.value) == c;
      assert s in xs + [e];
    }
    assert e in xs + [e];
  }

  /** What an edit may change on a cluster: alias and subnets of one vnet. */
  ghost predicate OnlyDressing(a: Cluster, b: Cluster, name: Id) {
    && b.ctrls == a.ctrls && b.zones == a.zones && b.vnets.Keys == a.vnets.Keys
    && (forall n :: n in a.vnets && n != name ==> b.vnets[n] == a.vnets[n])
    && (name in a.vnets ==> b.vnets[name].zone == a.vnets[name].zone && b.vnets[name].tag == a.vnets[name].tag)
  }

  lemma {:induction false} AddSubnetsFrame(b: Build, name: Id, adds: seq<Subnet>, n: nat)
    requires n <= |adds|
    ensures var e := AddSubnets(b, name, adds, n);
            && e.r.cl == SetSubnets(b.r.cl, name, SubnetsOf(e.r.cl, name))
            && e.r.fate == b.r.fate && e.r.tick >= b.r.tick
  {
    if n > 0 { AddSubnetsFrame(b, name, adds, n - 1); }
  }

  lemma AddSubnetFine(b: Build, name: Id, s: Subnet)
    requires b.ok && b.r.Now().Fine() && name in b.r.cl.vnets
    ensures var e := AddSubnet(b, name, s);
            && e.ok && name in e.r.cl.vnets && e.r.fate == b.r.fate && e.r.tick >= b.r.tick
            && LiveNets(e.r.cl, name) == LiveNets(b.r.cl, name) + {Canon(s.cidr)}
  {
    NetsInAppend(SubnetsOf(b.r.cl, name), LiveOf(s));
  }

  lemma {:induction false} AddSubnetsFine(b: Build, name: Id, adds: seq<Subnet>, n: nat)
    requires n <= |adds| && b.ok && AllFine(b.r) && name in b.r.cl.vnets
    ensures var e := AddSubnets(b, name, adds, n);
            && e.ok && name in e.r.cl.vnets && e.r.fate == b.r.fate && e.r.tick >= b.r.tick
            && LiveNets(e.r.cl, name) == LiveNets(b.r.cl, name) + NetsOf(adds[..n])
  {
    if n > 0 {
      AddSubnetsFine(b, name, adds, n - 1);
      AddSubnetFine(AddSubnets(b, name, adds, n - 1), name, adds[n - 1]);
      OneMoreAdded(adds, n);
    } else {
      assert NetsOf(adds[..0]) == {};
    }
  }

  lemma OneMoreAdded(adds: seq<Subnet>, n: nat)
    requires 0 < n <= |adds|
    ensures NetsOf(adds[..n]) == NetsOf(adds[..n - 1]) + {Canon(adds[n - 1].cidr)}
  {
    assert adds[..n] == adds[..n - 1] + [adds[n - 1]];
    NetsOfAppend(adds[..n - 1], adds[n - 1]);
  }

  lemma SetTwice(cl: Cluster, name: Id, a: seq<LiveSubnet>, b: seq<LiveSubnet>)
    ensures SetSubnets(SetSubnets(cl, name, a), name, b) == SetSubnets(cl, name, b)
  {
    if name in cl.vnets {
      var va, vb := cl.vnets[name].(subnets := a), cl.vnets[name].(subnets := b);
      assert cl.vnets[name := va][name := vb] == cl.vnets[name := vb];
    }
  }

  lemma {:induction false} SweepFrame(s: Sweep, name: Id, es: seq<LiveSubnet>, want: set<Cidr>, n: nat)
    requires n <= |es| && s.kept == [] && SubnetsOf(s.r.cl, name) == es
    ensures var e := SweepSome(s, name, es, want, n);
            && e.r.cl == SetSubnets(s.r.cl, name, e.kept + es[n..])
            && e.r.fate == s.r.fate && e.r.tick >= s.r.tick
  {
    if n == 0 {
      assert [] + es == es;
      assert SetSubnets(s.r.cl, name, es) == s.r.cl;
    } else {
      SweepFrame(s, name, es, want, n - 1);
      var e0, e := SweepSome(s, name, es, want, n - 1), SweepSome(s, name, es, want, n);
      assert es[n - 1..] == [es[n - 1]] + es[n..];
      assert (e0.kept + [es[n - 1]]) + es[n..] == e0.kept + es[n - 1..];
      SetTwice(s.r.cl, name, e0.kept + es[n - 1..], e.kept + es[n..]);
    }
  }

  lemma {:induction false} SweepFine(s: Sweep, name: Id, es: seq<LiveSubnet>, want: set<Cidr>, n: nat)
    requires n <= |es| && s.kept == [] && AllFine(s.r) && SubnetsOf(s.r.cl, name) == es
    ensures NetsIn(SweepSome(s, name, es, want, n).kept) == NetsIn(es[..n]) - want
  {
    if n > 0 {
      SweepFrame(s, name, es, want, n - 1);
      SweepFine(s, name, es, want, n - 1);
      assert es[..n] == es[..n - 1] + [es[n - 1]];
      NetsInAppend(es[..n - 1], es[n - 1]);
      NetsInAppend(SweepSome(s, name, es, want, n - 1).kept, es[n - 1]);
    }
  }

  lemma DeleteStageFrame(b: Build, name: Id, dels: seq<Cidr>)
    ensures var e := DeleteStage(b, name, dels);
            && e.r.cl == SetSubnets(b.r.cl, name, SubnetsOf(e.r.cl, name)) && e.ok == b.ok
            && e.r.fate == b.r.fate && e.r.tick >= b.r.tick
  {
    if b.ok && dels != [] && b.r.Now().Fine() {
      var es := SubnetsOf(b.r.cl, name);
      SweepFrame(Sweep(b.r.Read(), [], b.changed), name, es, CanonSet(dels), |es|);
    }
    assert SetSubnets(b.r.cl, name, SubnetsOf(b.r.cl, name)) == b.r.cl;
  }

  lemma DeleteStageFine(b: Build, name: Id, dels: seq<Cidr>)
    requires b.ok && AllFine(b.r) && name in b.r.cl.vnets
    ensures LiveNets(DeleteStage(b, name, dels).r.cl, name) == LiveNets(b.r.cl, name) - CanonSet(dels)
  {
    if dels != [] {
      var es := SubnetsOf(b.r.cl, name);
      var s := Sweep(b.r.Read(), [], b.changed);
      SweepFrame(s, name, es, CanonSet(dels), |es|);
      SweepFine(s, name, es, CanonSet(dels), |es|);
      assert es[..|es|] == es;
      assert SweepSome(s, name, es, CanonSet(dels), |es|).kept + es[|es|..]
             == SweepSome(s, name, es, CanonSet(dels), |es|).kept;
    }
  }

  function Added(r: Remote, name: Id, ch: Changes): Build {
    AddSubnets(AliasStage(Build(r, true, false, []), name, ch.alias), name, ch.adds, |ch.adds|)
  }

  lemma AliasFrame(b: Build, name: Id, alias: Option<string>)
    ensures var e := AliasStage(b, name, alias);
            OnlyDressing(b.r.cl, e.r.cl, name) && e.r.fate == b.r.fate && e.r.tick >= b.r.tick
  {
  }

  lemma DressedAgain(a: Cluster, b: Cluster, name: Id, subs: seq<LiveSubnet>)
    requires OnlyDressing(a, b, name)
    ensures OnlyDressing(a, SetSubnets(b, name, subs), name)
  {
  }

  /** Whatever fails, an edit touches the alias and the subnets of its vnet and nothing else. */
  lemma EditFrame(r: Remote, name: Id, ch: Changes)
    ensures OnlyDressing(r.cl, EditOn(r, name, ch).0.cl, name)
    ensures EditOn(r, name, ch).0.fate == r.fate && EditOn(r, name, ch).0.tick > r.tick
  {
    if r.Now().Fine() {
      var b := Build(r.Read(), true, false, []);
      var aliased := AliasStage(b, name, ch.alias);
      var added := AddSubnets(aliased, name, ch.adds, |ch.adds|);
      AliasFrame(b, name, ch.alias);
      AddSubnetsFrame(aliased, name, ch.adds, |ch.adds|);
      DressedAgain(r.cl, aliased.r.cl, name, SubnetsOf(added.r.cl, name));
      DeleteStageFrame(added, name, ch.dels);
      DressedAgain(r.cl, added.r.cl, name, SubnetsOf(DeleteStage(added, name, ch.dels).r.cl, name));
    }
  }

  /** A failure-free edit succeeds and leaves the live networks at (old plus added) minus deleted. */
  lemma LiveAfterEdit(r: Remote, name: Id, ch: Changes)
    requires AllFine(r) && name in r.cl.vnets
    ensures var (r', status) := EditOn(r, name, ch);
            && status == Applied && name in r'.cl.vnets
               && LiveNets(r'.cl, name) == (LiveNets(r.cl, name) + NetsOf(ch.adds)) - CanonSet(ch.dels)
            && r'.cl.vnets[name].alias == (if ch.alias.Some? then ch.alias.value else r.cl.vnets[name].alias)
  {
    var b := AliasStage(Build(r.Read(), true, false, []), name, ch.alias);
    AddSubnetsFrame(b, name, ch.adds, |ch.adds|);
    AddSubnetsFine(b, name, ch.adds, |ch.adds|);
    assert ch.adds[..|ch.adds|] == ch.adds;
    var a := Added(r.Read(), name, ch);
    DeleteStageFrame(a, name, ch.dels);
    DeleteStageFine(a, name, ch.dels);
  }

  /** A member adds and then deletes, the record deletes and then adds. Where the member showed the recorded
      networks before a failure-free edit, it shows them afterwards exactly when no network is added and deleted. */
  lemma EditAgreement(r: Remote, name: Id, ch: Changes, subs: seq<Subnet>)
    requires AllFine(r) && name in r.cl.vnets && LiveNets(r.cl, name) == NetsOf(subs)
    ensures LiveNets(EditOn(r, name, ch).0.cl, name) == NetsOf(EditedSubnets(subs, ch))
            <==> NetsOf(ch.adds) !! CanonSet(ch.dels)
  {
    LiveAfterEdit(r, name, ch);
    RecordAfterEdit(subs, ch);
    if c :| c in NetsOf(ch.adds) && c in CanonSet(ch.dels) {
      assert c in NetsOf(EditedSubnets(subs, ch)) && c !in LiveNets(EditOn(r, name, ch).0.cl, name);
    }
  }

  // ---------------------------------------------------------------- what an edit posts and when it reloads

  /** `after` holds nothing but subnets of `before` and subnets that were asked for, as they were asked for. */
  ghost predicate OnlyAsked(before: seq<LiveSubnet>, after: seq<LiveSubnet>, asked: seq<Subnet>) {
    forall e :: e in after ==> e in before || exists s :: s in asked && AsAsked(e, s)
  }

  lemma {:induction false} AddSubnetsOnlyAsked(b: Build, name: Id, adds: seq<Subnet>, n: nat)
    requires n <= |adds|
    ensures OnlyAsked(SubnetsOf(b.r.cl, name), SubnetsOf(AddSubnets(b, name, adds, n).r.cl, name), adds)
  {
    if n > 0 {
      AddSubnetsOnlyAsked(b, name, adds, n - 1);
      assert AsAsked(LiveOf(adds[n - 1]), adds[n - 1]) && adds[n - 1] in adds;
    }
  }

  lemma {:induction false} SweepKeepsSome(s: Sweep, name: Id, es: seq<LiveSubnet>, want: set<Cidr>, n: nat)
    requires n <= |es| && s.kept == []
    ensures forall e :: e in SweepSome(s, name, es, want, n).kept ==> e in es[..n]
  {
    if n > 0 {
      SweepKeepsSome(s, name, es, want, n - 1);
      assert es[..n] == es[..n - 1] + [es[n - 1]];
    }
  }

  lemma DeleteStageKeepsSome(b: Build, name: Id, dels: seq<Cidr>)
    ensures OnlyAsked(SubnetsOf(b.r.cl, name), SubnetsOf(DeleteStage(b, name, dels).r.cl, name), [])
  {
    if b.ok && dels != [] && b.r.Now().Fine() {
      var es := SubnetsOf(b.r.cl, name);
      var s := Sweep(b.r.Read(), [], b.changed);
      SweepFrame(s, name, es, CanonSet(dels), |es|);
      SweepKeepsSome(s, name, es, CanonSet(dels), |es|);
      assert es[..|es|] == es && es[|es|..] == [];
    }
  }

  /** Whatever fails, every subnet an edit adds carries network, gateway and SNAT flag of one it was asked to add. */
  lemma EditAddsAsRequested(r: Remote, name: Id, ch: Changes)
    ensures OnlyAsked(SubnetsOf(r.cl, name), SubnetsOf(EditOn(r, name, ch).0.cl, name), ch.adds)
  {
    if r.Now().Fine() {
      var b := AliasStage(Build(r.Read(), true, false, []), name, ch.alias);
      assert SubnetsOf(b.r.cl, name) == SubnetsOf(r.cl, name);
      AddSubnetsOnlyAsked(b, name, ch.adds, |ch.adds|);
      DeleteStageKeepsSome(AddSubnets(b, name, ch.adds, |ch.adds|), name, ch.dels);
    }
  }

  /** As long as the edit goes on, it counts as changed exactly when it sent a write. */
  ghost predicate Marked(r: Remote, b: Build) {
    && r.log <= b.r.log
    && (b.ok ==> (b.changed <==> Since(r, b.r.log) != []) && (!b.changed ==> b.r.cl == r.cl))
  }

  lemma {:induction false} AddSubnetsMarked(r: Remote, b: Build, name: Id, adds: seq<Subnet>, n: nat)
    requires n <= |adds| && Marked(r, b)
    ensures Marked(r, AddSubnets(b, name, adds, n))
  {
    if n > 0 { AddSubnetsMarked(r, b, name, adds, n - 1); }
  }

  lemma {:induction false} SweepMarked(r: Remote, s: Sweep, name: Id, es: seq<LiveSubnet>, want: set<Cidr>, n: nat)
    requires n <= |es| && r.log <= s.r.log && (s.changed <==> Since(r, s.r.log) != [])
             && (!s.changed ==> s.r.cl == r.cl)
    ensures var e := SweepSome(s, name, es, want, n);
            r.log <= e.r.log && (e.changed <==> Since(r, e.r.log) != []) && (!e.changed ==> e.r.cl == r.cl)
  {
    if n > 0 { SweepMarked(r, s, name, es, want, n - 1); }
  }

  lemma DeleteStageMarked(r: Remote, b: Build, name: Id, dels: seq<Cidr>)
    requires Marked(r, b)
    ensures Marked(r, DeleteStage(b, name, dels))
  {
    if b.ok && dels != [] {
      var es := if b.r.Now().Fine() then SubnetsOf(b.r.cl, name) else [];
      SweepMarked(r, Sweep(b.r.Read(), [], b.changed), name, es, CanonSet(dels), |es|);
    }
  }

  /** An edit that reports success either sent nothing and changed nothing, or ended in a successful reload. */
  lemma EditReloadsLast(r: Remote, name: Id, ch: Changes)
    requires EditOn(r, name, ch).1.Applied?
    ensures var r' := EditOn(r, name, ch).0;
            && r.log <= r'.log
            && var sent := Since(r, r'.log);
               if sent == [] then r'.cl == r.cl else |sent| > 1 && sent[|sent| - 1] == Reload(true)
  {
    var b := AliasStage(Build(r.Read(), true, false, []), name, ch.alias);
    assert Marked(r.Read(), b);
    AddSubnetsMarked(r.Read(), b, name, ch.adds, |ch.adds|);
    var e := AddSubnets(b, name, ch.adds, |ch.adds|);
    DeleteStageMarked(r.Read(), e, name, ch.dels);
    var last := DeleteStage(e, name, ch.dels);
    if last.changed { assert Since(r, last.r.log + [Reload(true)]) == Since(r, last.r.log) + [Reload(true)]; }
  }

  lemma {:induction false} AddSubnetsGoOn(b: Build, name: Id, adds: seq<Subnet>, n: nat)
    requires n <= |adds|
    ensures var e := AddSubnets(b, name, adds, n);
            && (e.ok <==> b.ok && FineFor(b.r, n) && (n > 0 ==> name in b.r.cl.vnets))
            && (e.ok ==> e.r.tick == b.r.tick + n)
            && e.r.fate == b.r.fate && (name in e.r.cl.vnets <==> name in b.r.cl.vnets)
  {
    if n > 0 {
      AddSubnetsGoOn(b, name, adds, n - 1);
      assert FineFor(b.r, n) <==> FineFor(b.r, n - 1) && b.r.fate(b.r.tick + n - 1).Fine();
    }
  }

  lemma AliasGoesOn(r: Remote, name: Id, ch: Changes)
    ensures var b := AliasStage(Build(r, true, false, []), name, ch.alias); var n := if ch.alias.Some? then 1 else 0;
            && (b.ok <==> FineFor(r, n) && (n > 0 ==> name in r.cl.vnets))
            && b.r.fate == r.fate && b.r.tick == r.tick + n && (name in b.r.cl.vnets <==> name in r.cl.vnets)
            && Marked(r, b)
  {
  }

  lemma AddedGoesOn(r: Remote, name: Id, ch: Changes)
    ensures var e := Added(r, name, ch); var n := |ch.adds| + if ch.alias.Some? then 1 else 0;
            && (e.ok <==> FineFor(r, n) && (n > 0 ==> name in r.cl.vnets))
            && Marked(r, e)
  {
    AliasGoesOn(r, name, ch);
    var b := AliasStage(Build(r, true, false, []), name, ch.alias);
    AddSubnetsGoOn(b, name, ch.adds, |ch.adds|);
    AddSubnetsMarked(r, b, name, ch.adds, |ch.adds|);
    var k := if ch.alias.Some? then 1 else 0;
    assert FineFor(r, k + |ch.adds|)
           <==> FineFor(r, k) && forall i :: r.tick + k <= i < r.tick + k + |ch.adds| ==> r.fate(i).Fine();
  }

  /** An edit reports success exactly when the lookup, the PUT of the alias and every POST are answered without
      failure, the vnet being there if one of these was sent, and the reload at the end, if there is one, succeeds; a
      deletion may fail. An offline or unknown cluster is reported as such. */
  lemma EditAppliedIff(r: Remote, name: Id, ch: Changes)
    ensures var (r', status) := EditOn(r, name, ch); var n := |ch.adds| + if ch.alias.Some? then 1 else 0;
            && r'.tick > r.tick
            && (status == Applied <==>
                  && FineFor(r, 1 + n) && (n > 0 ==> name in r.cl.vnets)
                  && (r'.log != r.log ==> r.fate(r'.tick - 1).Fine()))
            && (status == Offline <==> r.fate(r.tick).Bad?) && (status == NotFound <==> r.fate(r.tick).Absent?)
            && (status == Applied || status == Failed || status == Offline || status == NotFound)
  {
    EditFrame(r, name, ch);
    var n := |ch.adds| + if ch.alias.Some? then 1 else 0;
    assert FineFor(r, 1 + n) <==> r.Now().Fine() && FineFor(r.Read(), n);
    if r.Now().Fine() {
      AddedGoesOn(r.Read(), name, ch);
      var e := Added(r.Read(), name, ch);
      DeleteStageMarked(r.Read(), e, name, ch.dels);
      LastStep(r.Read(), DeleteStage(e, name, ch.dels));
      EditFromEnds(r, name, ch);
      DeleteStageFrame(e, name, ch.dels);
    }
  }

  lemma EditFromEnds(r: Remote, name: Id, ch: Changes)
    requires r.Now().Fine()
    ensures var b := ReloadStage(DeleteStage(Added(r.Read(), name, ch), name, ch.dels));
            EditOn(r, name, ch) == (b.r, if b.ok then Applied else Failed)
    ensures DeleteStage(Added(r.Read(), name, ch), name, ch.dels).ok == Added(r.Read(), name, ch).ok
  {
  }

  lemma LastStep(r: Remote, b: Build)
    requires Marked(r, b)
    ensures var e := ReloadStage(b);
            b.ok ==> (e.ok <==> !b.changed || b.r.Now().Fine()) && (b.changed <==> e.r.log != r.log)
                     && (b.changed ==> e.r.tick == b.r.tick + 1 && e.r.fate == b.r.fate)
  {
  }
}
