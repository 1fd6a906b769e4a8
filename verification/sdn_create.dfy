/** The two ways a create can leave something behind: a rollback that is not complete, and a create that was
    told not to roll back. */
module SdnCreate {
  import opened SdnTypes
  import opened SdnRemote
  import opened SdnBuild
  import opened SdnRollback
  import opened SdnWorld
  import opened SdnInvariant

  ghost function Checked(w: World, d: Defn): Preflight { PreflightSome(w.sites, d.members, d, |d.members|) }

  /** The statuses an accepted create collects from its members. */
  ghost function Collected(w: World, d: Defn, lost: set<Id>): map<Id, Status> {
    Statuses(Reports(Checked(w, d).sites, ForAll(d.members, DoApply(d)), lost))
  }

  /** The build of `d` made nothing on the cluster, or it was reported and the replies let the rollback delete it. */
  ghost predicate RolledBack(r1: Remote, d: Defn, created: seq<Kind>, lost: bool) {
    created == [] || (!lost && DeletesFine(r1, created))
  }

  lemma RestoredIff(a: Cluster, r1: Remote, d: Defn, created: seq<Kind>, lost: bool)
    requires Grown(a, r1.cl, d, created)
    ensures Infra(Teardown(r1, d, if lost then [] else created).r.cl) == Infra(a) <==> RolledBack(r1, d, created, lost)
  {
    var listed := if lost then [] else created;
    TeardownShrinks(r1, d, listed);
    GrowShrink(a, r1.cl, Teardown(r1, d, listed).r.cl, d, created, Teardown(r1, d, listed).deleted);
    AllDeletedIff(r1, d, created);
    assert created != [] ==> created[0] in created;
  }

  /** The clusters once every member has been built on. */
  ghost function BuiltSites(w: World, d: Defn): map<Id, Remote> {
    Perform(Checked(w, d).sites, ForAll(d.members, DoApply(d)))
  }

  lemma FailedCreateShape(w: World, vid: Vid, tok: Token, d: Defn, lost: set<Id>, c: Id)
    requires Checked(w, d).ok && RollupOf(Collected(w, d, lost)) != AllApplied && c in w.sites
             && c in Checked(w, d).sites
    ensures var after := CreateSpan(w, vid, tok, d, true, lost);
            var r := Checked(w, d).sites[c];
            && after.rows == w.rows && c in after.sites
            && (c !in d.members ==> after.sites[c] == r)
            && var created := if c in lost then [] else ReportOf(r, DoApply(d)).created;
               (c in d.members ==> after.sites[c] == Teardown(Do(r, DoApply(d)), d, created).r)
  {
  }

  /** A failed atomic create records nothing and leaves the controllers, zones and vnets of each cluster as they
      were exactly where the member's build was fully rolled back; a member whose report was lost is not rolled back. */
  lemma FailedCreateRestores(w: World, vid: Vid, tok: Token, d: Defn, lost: set<Id>, c: Id)
    requires Checked(w, d).ok && RollupOf(Collected(w, d, lost)) != AllApplied && c in w.sites
    ensures var after := CreateSpan(w, vid, tok, d, true, lost);
            && after.rows == w.rows && c in after.sites && c in Checked(w, d).sites
            && var (r1, out) := ApplyOn(Checked(w, d).sites[c], d);
               Infra(after.sites[c].cl) == Infra(w.sites[c].cl) <==>
                 (c in d.members ==> RolledBack(r1, d, out.created, c in lost))
  {
    PreflightOnlyReads(w.sites, d.members, d, |d.members|);
    FailedCreateShape(w, vid, tok, d, lost, c);
    var r := Checked(w, d).sites[c];
    var (r1, out) := ApplyOn(r, d);
    ApplyGrows(r, d);
    RestoredIff(r.cl, r1, d, out.created, c in lost);
  }

  // ---------------------------------------------------------------- the pre-flight

  /** What the pre-flight accepts: lookup and listings succeed and nothing is in conflict. */
  ghost predicate Acceptable(r: Remote, d: Defn) { FineFor(r, 4) && !Collides(r.cl, d) }

  function AfterReads(r: Remote): Remote { r.(tick := r.tick + 4) }

  lemma PreflightOneMeaning(r: Remote, d: Defn)
    ensures var (r1, v) := PreflightOn(r, d); (v.Clear? <==> Acceptable(r, d)) && (v.Clear? ==> r1 == AfterReads(r))
  {
    if FineFor(r, 4) {
      assert r.fate(r.tick).Fine() && r.fate(r.tick + 1).Fine() && r.fate(r.tick + 2).Fine()
             && r.fate(r.tick + 3).Fine();
    }
  }

  /** What the other verdicts say: the lookup failed, a listing failed, or something is in conflict. */
  lemma VerdictMeaning(r: Remote, d: Defn)
    ensures var (r1, v) := PreflightOn(r, d);
            && (v == Unreachable <==> !FineFor(r, 1))
            && (v == ReadFailed <==> FineFor(r, 1) && !FineFor(r, 4))
            && (v == Conflicting <==> FineFor(r, 4) && Collides(r.cl, d))
            && r1.cl == r.cl && r1.log == r.log
  {
    assert FineFor(r, 1) <==> r.fate(r.tick).Fine();
    assert FineFor(r, 4) <==> FineFor(r, 1) && r.fate(r.tick + 1).Fine() && r.fate(r.tick + 2).Fine()
                              && r.fate(r.tick + 3).Fine();
  }

  lemma {:induction false} PreflightMeaning(sites: map<Id, Remote>, members: seq<Id>, d: Defn, n: nat)
    requires n <= |members| && Distinct(members)
    ensures var p := PreflightSome(sites, members, d, n);
            && p.sites.Keys == sites.Keys
            && (p.ok <==> forall i :: 0 <= i < n ==> members[i] in sites && Acceptable(sites[members[i]], d))
            && (p.ok ==> forall c :: c in sites ==>
                  p.sites[c] == if c in members[..n] then AfterReads(sites[c]) else sites[c])
  {
    if n > 0 {
      PreflightMeaning(sites, members, d, n - 1);
      var p, c := PreflightSome(sites, members, d, n - 1), members[n - 1];
      assert members[..n] == members[..n - 1] + [c];
      if p.ok && c in sites {
        assert c !in members[..n - 1];
        PreflightOneMeaning(sites[c], d);
      }
    }
  }

  /** A create passes its pre-flight exactly when every member is known, readable and free of conflicts. */
  lemma CheckedIff(w: World, d: Defn)
    requires Distinct(d.members)
    ensures Checked(w, d).ok <==> forall c :: c in d.members ==> c in w.sites && Acceptable(w.sites[c], d)
    ensures Checked(w, d).ok ==> forall c :: c in d.members ==>
              c in Checked(w, d).sites && Checked(w, d).sites[c] == AfterReads(w.sites[c])
  {
    PreflightMeaning(w.sites, d.members, d, |d.members|);
    assert d.members[..|d.members|] == d.members;
  }

  // ---------------------------------------------------------------- creates that do not roll back

  lemma NonAtomicShape(w: World, vid: Vid, tok: Token, d: Defn, lost: set<Id>)
    requires Checked(w, d).ok && !NameTaken(w.rows, d.name) && vid !in w.rows
    ensures var after := CreateSpan(w, vid, tok, d, false, lost);
            after.sites == BuiltSites(w, d) && after.rows == w.rows[vid := NewRow(d, Collected(w, d, lost))]
  {
  }

  /** After an accepted fan-out the recorded spans are built, and each member with the objects has them with a fitting
      definition. */
  lemma BuiltSitesSound(w: World, d: Defn)
    requires Inv(w) && Checked(w, d).ok
    ensures SpansBuilt(BuiltSites(w, d), w.rows) && VnisKept(w.sites, BuiltSites(w, d))
    ensures forall c :: c in d.members ==>
              c in BuiltSites(w, d) && (Present(BuiltSites(w, d)[c].cl, d) <==> Built(BuiltSites(w, d)[c].cl, d))
  {
    var p := Checked(w, d);
    PreflightOnlyReads(w.sites, d.members, d, |d.members|);
    var ops := ForAll(d.members, DoApply(d));
    PerformKeepsSpans(p.sites, ops, w.rows);
    PerformKeepsVnis(p.sites, ops);
    VnisChain(w.sites, p.sites, BuiltSites(w, d));
    forall c | c in d.members
      ensures c in p.sites && (Present(BuiltSites(w, d)[c].cl, d) <==> Built(BuiltSites(w, d)[c].cl, d))
    {
      PresentIsBuilt(p.sites[c], d);
    }
  }

  lemma PresentIsBuilt(r: Remote, d: Defn)
    requires !Collides(r.cl, d)
    ensures Present(Do(r, DoApply(d)).cl, d) <==> Built(Do(r, DoApply(d)).cl, d)
  {
    ApplyGrows(r, d);
    var (r1, out) := ApplyOn(r, d);
    if Present(r1.cl, d) { GrownFits(r.cl, r1.cl, d, out.created); }
  }

  lemma GrownFits(a: Cluster, b: Cluster, d: Defn, created: seq<Kind>)
    requires Grown(a, b, d, created) && !Collides(a, d) && Present(b, d)
    ensures Built(b, d)
  {
  }

  /** A create that does not roll back keeps every recorded span built, its own included, exactly when each member had
      controller, zone and vnet or its replies to the build got it that far. VNIs stay distinct either way. */
  lemma NonAtomicCreateIff(w: World, vid: Vid, tok: Token, d: Defn, lost: set<Id>)
    requires Inv(w) && ValidDefn(d) && !NameTaken(w.rows, d.name) && vid !in w.rows
    requires forall c :: c in d.members ==> c in w.sites && Acceptable(w.sites[c], d)
    ensures var after := CreateSpan(w, vid, tok, d, false, lost);
            && (Inv(after) <==> forall c :: c in d.members ==> Reaches(AfterReads(w.sites[c]), d))
            && VnisKept(w.sites, after.sites)
  {
    CheckedIff(w, d);
    NonAtomicShape(w, vid, tok, d, lost);
    BuiltSitesSound(w, d);
    var row := NewRow(d, Collected(w, d, lost));
    var sites := BuiltSites(w, d);
    forall c | c in d.members ensures Built(sites[c].cl, d) <==> Reaches(AfterReads(w.sites[c]), d) {
      assert c in ForAll(d.members, DoApply(d));
      PresentIff(AfterReads(w.sites[c]), d);
    }
    if forall c :: c in d.members ==> Reaches(AfterReads(w.sites[c]), d) {
      InsertKeepsInv(sites, w.rows, vid, row);
    } else {
      var c :| c in d.members && !Reaches(AfterReads(w.sites[c]), d);
      var rows := w.rows[vid := row];
      assert vid in rows && c in rows[vid].members && !Built(sites[c].cl, rows[vid].desired);
    }
  }

  /** Such creates exist: on one empty cluster, the first POST of the build is refused. */
  lemma NonAtomicCreateCanBreak(w: World, d: Defn, fate: nat -> Reply)
    requires ValidDefn(d) && d.members == ["c"] && w.rows == map[]
    requires w.sites == map["c" := Remote(Cluster(map[], map[], map[]), fate, 0, [])]
    requires forall n :: fate(n) == if n == 8 then Bad else Good
    ensures Inv(w) && !Inv(CreateSpan(w, "v", 0, d, false, {}))
  {
    NonAtomicCreateIff(w, "v", 0, d, {});
    var r := AfterReads(w.sites["c"]);
    assert "c" in d.members && r.tick <= 8 < r.tick + 4 + Lacking(r.cl, d) && !r.fate(8).Fine();
  }
}
