/** The check of a move against the affinity rules of a cluster, and what a run of checked moves keeps. */
module Affinity {
  import opened Wrappers

  type Vm = string
  type Node = string

  datatype Kind = Together | Separate | OtherKind

  /** A stored rule lists its guests under `vms`, one sent by the frontend under `vmIds`. */
  datatype Rule = Rule(cluster: string, enabled: bool, kind: Kind, vmIds: seq<Vm>, vms: seq<Vm>, name: string) {
    function Guests(): seq<Vm> { if vmIds != [] then vmIds else vms }
  }

  datatype Resource = Resource(guest: bool, vm: Vm, node: Node)

  type Placement = map<Vm, Node>

  /** Where the guests of a resource listing run; of several entries for one guest the last counts. */
  function PlacementOf(rs: seq<Resource>): Placement {
    if rs == [] then map[]
    else
      var p, r := PlacementOf(rs[..|rs| - 1]), rs[|rs| - 1];
      if r.guest then p[r.vm := r.node] else p
  }

  /** The listing shows guest `v` on node `n`: the last guest entry for `v` says so. */
  ghost predicate At(rs: seq<Resource>, v: Vm, n: Node) {
    exists i :: 0 <= i < |rs| && rs[i] == Resource(true, v, n) &&
                forall j :: i < j < |rs| && rs[j].guest ==> rs[j].vm != v
  }

  /** The placement has a guest exactly where the listing shows it. */
  lemma {:induction false} PlacementMeaning(rs: seq<Resource>, v: Vm, n: Node)
    ensures v in PlacementOf(rs) && PlacementOf(rs)[v] == n <==> At(rs, v, n)
    ensures v in PlacementOf(rs) <==> exists i :: 0 <= i < |rs| && rs[i].guest && rs[i].vm == v
  {
    if rs != [] {
      var front, r := rs[..|rs| - 1], rs[|rs| - 1];
      PlacementMeaning(front, v, n);
      if r.guest && r.vm == v {
        assert At(rs, v, n) <==> r.node == n;
      } else {
        if At(front, v, n) {
          var i :| 0 <= i < |front| && front[i] == Resource(true, v, n) &&
                   forall j :: i < j < |front| && front[j].guest ==> front[j].vm != v;
          assert rs[i] == Resource(true, v, n);
        }
        if At(rs, v, n) {
          var i :| 0 <= i < |rs| && rs[i] == Resource(true, v, n) &&
                   forall j :: i < j < |rs| && rs[j].guest ==> rs[j].vm != v;
          assert front[i] == Resource(true, v, n);
        }
      }
    }
  }

  predicate Applies(rule: Rule, cluster: string) { rule.cluster == cluster && rule.enabled }

  /** The rule is satisfied by a placement. */
  ghost predicate Holds(rule: Rule, p: Placement) {
    forall u, v :: u in rule.Guests() && v in rule.Guests() && u != v && u in p && v in p ==>
      match rule.kind
      case Together => p[u] == p[v]
      case Separate => p[u] != p[v]
      case OtherKind => true
  }

  ghost predicate AllHold(rules: seq<Rule>, cluster: string, p: Placement) {
    forall rule :: rule in rules && Applies(rule, cluster) ==> Holds(rule, p)
  }

  /** The nodes of the other guests of a rule. */
  function OtherNodes(rule: Rule, p: Placement, vm: Vm): set<Node> {
    set v | v in rule.Guests() && v != vm && v in p :: p[v]
  }

  predicate Violates(rule: Rule, p: Placement, vm: Vm, target: Node) {
    vm in rule.Guests() &&
    match rule.kind
    case Together => OtherNodes(rule, p, vm) != {} && target !in OtherNodes(rule, p, vm)
    case Separate => target in OtherNodes(rule, p, vm)
    case OtherKind => false
  }

  /** The guest is on the rule's list: the frontend's if that names any guest, else the stored one. */
  ghost predicate Listed(rule: Rule, v: Vm) { v in rule.vmIds || (|rule.vmIds| == 0 && v in rule.vms) }

  /** The listing shows another guest of the rule on node `n`. */
  ghost predicate OtherAt(rule: Rule, rs: seq<Resource>, vm: Vm, n: Node) {
    exists v :: Listed(rule, v) && v != vm && At(rs, v, n)
  }

  /** A move breaks a together rule that has another guest somewhere but none at the target, and a separate rule that
      has another guest at the target. */
  ghost predicate Breaks(rule: Rule, rs: seq<Resource>, vm: Vm, target: Node) {
    && Listed(rule, vm)
    && ((rule.kind == Together && (exists n :: OtherAt(rule, rs, vm, n)) && !OtherAt(rule, rs, vm, target))
        || (rule.kind == Separate && OtherAt(rule, rs, vm, target)))
  }

  lemma OtherNodesMeaning(rule: Rule, rs: seq<Resource>, vm: Vm, n: Node)
    ensures n in OtherNodes(rule, PlacementOf(rs), vm) <==> OtherAt(rule, rs, vm, n)
  {
    var p := PlacementOf(rs);
    forall v ensures v in p && p[v] == n <==> At(rs, v, n) { PlacementMeaning(rs, v, n); }
    if n in OtherNodes(rule, p, vm) {
      var v :| v in rule.Guests() && v != vm && v in p && p[v] == n;
      assert Listed(rule, v) && At(rs, v, n);
    }
  }

  lemma BreaksIff(rule: Rule, rs: seq<Resource>, vm: Vm, target: Node)
    ensures Breaks(rule, rs, vm, target) <==> Violates(rule, PlacementOf(rs), vm, target)
  {
    var others := OtherNodes(rule, PlacementOf(rs), vm);
    OtherNodesMeaning(rule, rs, vm, target);
    forall n ensures n in others <==> OtherAt(rule, rs, vm, n) { OtherNodesMeaning(rule, rs, vm, n); }
    if others != {} { var n :| n in others; assert OtherAt(rule, rs, vm, n); }
  }

  /** Returns the first rule of the cluster that the move breaks, if there is one. */
  method CheckAffinityViolation(rules: seq<Rule>, clusters: set<string>, cluster: string, resources: seq<Resource>,
      vm: Vm, target: Node)
    returns (violated: Option<Rule>)
    ensures cluster !in clusters ==> violated == None
    ensures violated.Some? ==>
              && violated.value in rules && Applies(violated.value, cluster)
              && Violates(violated.value, PlacementOf(resources), vm, target)
    ensures violated.Some? ==>
              exists k :: 0 <= k < |rules| && rules[k] == violated.value &&
                          forall j :: 0 <= j < k && Applies(rules[j], cluster) ==>
                                        !Violates(rules[j], PlacementOf(resources), vm, target)
    ensures cluster in clusters ==>
              (violated.None? <==>
                forall rule :: rule in rules && Applies(rule, cluster)
                    ==> !Violates(rule, PlacementOf(resources), vm, target))
    ensures cluster in clusters ==>
              (violated.None? <==>
                forall rule :: rule in rules && rule.cluster == cluster && rule.enabled
                    ==> !Breaks(rule, resources, vm, target))
    ensures violated.Some? ==>
              exists k :: 0 <= k < |rules| && violated == Some(rules[k]) &&
                          rules[k].cluster == cluster && rules[k].enabled && Breaks(rules[k], resources, vm, target) &&
                          forall j :: 0 <= j < k && rules[j].cluster == cluster && rules[j].enabled ==>
                                        !Breaks(rules[j], resources, vm, target)
  {
    forall rule: Rule
      ensures Breaks(rule, resources, vm, target) <==> Violates(rule, PlacementOf(resources), vm, target)
    {
      BreaksIff(rule, resources, vm, target);
    }
    if cluster !in clusters { return None; }
    var vmNodes: Placement := map[];
    for i := 0 to |resources|
      invariant vmNodes == PlacementOf(resources[..i])
    {
      assert resources[..i + 1][..i] == resources[..i];
      if resources[i].guest { vmNodes := vmNodes[resources[i].vm := resources[i].node]; }
    }
    assert resources[..|resources|] == resources;
    for i := 0 to |rules|
      invariant forall k :: 0 <= k < i && Applies(rules[k], cluster) ==> !Violates(rules[k], vmNodes, vm, target)
    {
      var rule := rules[i];
      if rule.cluster == cluster && rule.enabled && vm in rule.Guests() {
        var ids := rule.Guests();
        var otherNodes: set<Node> := {};
        for j := 0 to |ids|
          invariant otherNodes == set v | v in ids[..j] && v != vm && v in vmNodes :: vmNodes[v]
        {
          assert ids[..j + 1] == ids[..j] + [ids[j]];
          if ids[j] != vm && ids[j] in vmNodes { otherNodes := otherNodes + {vmNodes[ids[j]]}; }
        }
        assert ids[..|ids|] == ids;
        match rule.kind
        case Together => if otherNodes != {} && target !in otherNodes { return Some(rule); }
        case Separate => if target in otherNodes { return Some(rule); }
        case OtherKind =>
      }
    }
    violated := None;
  }

  // ---------------------------------------------------------------- one move

  /** A violated rule is one the move would leave unsatisfied, whatever held before. */
  lemma ViolationIsReal(rule: Rule, p: Placement, vm: Vm, target: Node)
    requires Violates(rule, p, vm, target)
    ensures !Holds(rule, p[vm := target])
  {
    var q := p[vm := target];
    var n := if rule.kind.Together? then (var n :| n in OtherNodes(rule, p, vm); n) else target;
    var u :| u in rule.Guests() && u != vm && u in p && p[u] == n;
    assert u in q && vm in q && q[u] == n && q[vm] == target;
  }

  /** A rule that held before and is not violated holds afterwards. */
  lemma PassingKeepsRule(rule: Rule, p: Placement, vm: Vm, target: Node)
    requires Holds(rule, p) && !Violates(rule, p, vm, target)
    ensures Holds(rule, p[vm := target])
  {
    var q := p[vm := target];
    forall u, v | u in rule.Guests() && v in rule.Guests() && u != v && u in q && v in q
      ensures match rule.kind case Together => q[u] == q[v] case Separate => q[u] != q[v] case OtherKind => true
    {
      if v == vm { MovedAgainst(rule, p, vm, target, u); }
      if u == vm { MovedAgainst(rule, p, vm, target, v); }
    }
  }

  lemma MovedAgainst(rule: Rule, p: Placement, vm: Vm, target: Node, u: Vm)
    requires Holds(rule, p) && !Violates(rule, p, vm, target) && vm in rule.Guests() && u in rule.Guests() && u != vm
             && u in p
    ensures rule.kind.Together? ==> p[u] == target
    ensures rule.kind.Separate? ==> p[u] != target
  {
    assert p[u] in OtherNodes(rule, p, vm);
    if rule.kind.Together? {
      assert target in OtherNodes(rule, p, vm);
      var v :| v in rule.Guests() && v != vm && v in p && p[v] == target;
    }
  }

  /** While all rules of the cluster hold, a move is let through exactly when they all hold after it. */
  lemma GuardIsExact(rules: seq<Rule>, cluster: string, p: Placement, vm: Vm, target: Node)
    requires AllHold(rules, cluster, p)
    ensures (forall rule :: rule in rules && Applies(rule, cluster) ==> !Violates(rule, p, vm, target))
            <==> AllHold(rules, cluster, p[vm := target])
  {
    forall rule | rule in rules && Applies(rule, cluster)
      ensures !Violates(rule, p, vm, target) <==> Holds(rule, p[vm := target])
    {
      if Violates(rule, p, vm, target) {
        ViolationIsReal(rule, p, vm, target);
      } else {
        PassingKeepsRule(rule, p, vm, target);
      }
    }
  }

  // ---------------------------------------------------------------- runs

  datatype Move = Move(vm: Vm, target: Node)

  /** Each move is carried out only if no rule of the cluster is violated at that point. */
  ghost function Migrate(rules: seq<Rule>, cluster: string, p: Placement, moves: seq<Move>): Placement {
    if moves == [] then p
    else
      var q, m := Migrate(rules, cluster, p, moves[..|moves| - 1]), moves[|moves| - 1];
      if exists rule :: rule in rules && Applies(rule, cluster) && Violates(rule, q, m.vm, m.target) then q
      else q[m.vm := m.target]
  }

  /** If the rules hold at the start they hold after every run of checked moves. */
  lemma {:induction false} AffinityPreserved(rules: seq<Rule>, cluster: string, p: Placement, moves: seq<Move>)
    requires AllHold(rules, cluster, p)
    ensures AllHold(rules, cluster, Migrate(rules, cluster, p, moves))
  {
    if moves != [] {
      AffinityPreserved(rules, cluster, p, moves[..|moves| - 1]);
      var m := moves[|moves| - 1];
      GuardIsExact(rules, cluster, Migrate(rules, cluster, p, moves[..|moves| - 1]), m.vm, m.target);
    }
  }

  /** Consequence of the guard: under a together rule with another guest placed, a guest can only stay where it is. */
  lemma TogetherPins(rules: seq<Rule>, cluster: string, p: Placement, rule: Rule, vm: Vm, other: Vm, target: Node)
    requires AllHold(rules, cluster, p) && rule in rules && Applies(rule, cluster) && rule.kind.Together?
    requires vm in rule.Guests() && other in rule.Guests() && vm != other && vm in p && other in p
    requires !Violates(rule, p, vm, target)
    ensures target == p[vm]
  {
    MovedAgainst(rule, p, vm, target, other);
  }
}
