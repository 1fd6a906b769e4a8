/** Server-side downsampling of the insights history: one pass, flushing a bucket whenever a sample starts another. */
module Bucketing {

  datatype Load = Load(cpu: real, mem: real)

  datatype Sample = Sample(ts: int, cpu: real, mem: real, vms: int, cts: int, nodes: map<string, Load>)

  /** What can be read off a sample; a node that is not in it reads 0. */
  datatype Gauge = Cpu | Mem | NodeCpu(name: string) | NodeMem(name: string) | NodeCount(name: string)

  datatype Peak = Vms | Cts

  function Reading(g: Gauge, s: Sample): real {
    match g
    case Cpu => s.cpu
    case Mem => s.mem
    case NodeCpu(n) => if n in s.nodes then s.nodes[n].cpu else 0.0
    case NodeMem(n) => if n in s.nodes then s.nodes[n].mem else 0.0
    case NodeCount(n) => if n in s.nodes then 1.0 else 0.0
  }

  function Running(p: Peak, s: Sample): int { if p.Vms? then s.vms else s.cts }

  function Total(g: Gauge, s: seq<Sample>): real {
    if s == [] then 0.0 else Total(g, s[..|s| - 1]) + Reading(g, s[|s| - 1])
  }

  function Highest(p: Peak, s: seq<Sample>): int
    requires s != []
  {
    var x := Running(p, s[|s| - 1]);
    if |s| == 1 then x else var h := Highest(p, s[..|s| - 1]); if h < x then x else h
  }

  function Names(s: seq<Sample>): set<string> {
    if s == [] then {} else Names(s[..|s| - 1]) + s[|s| - 1].nodes.Keys
  }

  function Start(ts: int, step: int): int
    requires step > 0
  {
    ts - ts % step
  }

  function Key(s: Sample, step: int): int
    requires step > 0
  {
    s.ts / step
  }

  // ---------------------------------------------------------------- one bucket

  function Mean(g: Gauge, count: real, s: seq<Sample>): real {
    if count == 0.0 then 0.0 else Total(g, s) / count
  }

  function NodeMean(s: seq<Sample>, n: string): Load {
    var count := Total(NodeCount(n), s);
    Load(Mean(NodeCpu(n), count, s), Mean(NodeMem(n), count, s))
  }

  function Average(s: seq<Sample>, ts: int): Sample
    requires s != []
  {
    Sample(ts, Mean(Cpu, |s| as real, s), Mean(Mem, |s| as real, s), Highest(Vms, s), Highest(Cts, s),
           map n | n in Names(s) :: NodeMean(s, n))
  }

  lemma {:induction false} CountIsPositive(s: seq<Sample>, n: string)
    ensures Total(NodeCount(n), s) >= 0.0 && (n in Names(s) <==> Total(NodeCount(n), s) > 0.0)
    ensures n !in Names(s) ==> Total(NodeCpu(n), s) == 0.0 && Total(NodeMem(n), s) == 0.0
  {
    if s != [] { CountIsPositive(s[..|s| - 1], n); }
  }

  /** The running sums kept for one node while a bucket is averaged. */
  datatype Slot = Slot(cpuSum: real, memSum: real, count: real)

  function SlotOf(s: seq<Sample>, n: string): Slot {
    Slot(Total(NodeCpu(n), s), Total(NodeMem(n), s), Total(NodeCount(n), s))
  }

  function Add(slot: Slot, load: Load): Slot { Slot(slot.cpuSum + load.cpu, slot.memSum + load.mem, slot.count + 1.0) }

  method AvgSamples(samples: seq<Sample>, ts: int) returns (r: Sample)
    requires samples != []
    ensures r == Average(samples, ts)
  {
    var slots: map<string, Slot> := map[];
    for i := 0 to |samples|
      invariant slots.Keys == Names(samples[..i])
      invariant forall n :: n in slots ==> slots[n] == SlotOf(samples[..i], n)
    {
      var more := AddNodes(slots, samples[i]);
      assert samples[..i + 1] == samples[..i] + [samples[i]];
      NamesGrow(samples[..i], samples[i]);
      forall n | n in more ensures more[n] == SlotOf(samples[..i + 1], n) { AddReading(samples[..i], samples[i], n); }
      slots := more;
    }
    assert samples[..|samples|] == samples;
    forall n | n in slots ensures slots[n].count > 0.0 { CountIsPositive(samples, n); }
    var nodes := map n | n in slots :: Load(slots[n].cpuSum / slots[n].count, slots[n].memSum / slots[n].count);
    var vms := MaxRunning(samples, Vms);
    var cts := MaxRunning(samples, Cts);
    var count := |samples| as real;
    r := Sample(ts, Total(Cpu, samples) / count, Total(Mem, samples) / count, vms, cts, nodes);
    assert nodes == Average(samples, ts).nodes;
  }

  function SlotIn(slots: map<string, Slot>, n: string): Slot { if n in slots then slots[n] else Slot(0.0, 0.0, 0.0) }

  /** One more sample's nodes, in whatever order they come. */
  method AddNodes(before: map<string, Slot>, s: Sample) returns (slots: map<string, Slot>)
    ensures slots.Keys == before.Keys + s.nodes.Keys
    ensures forall n :: n in slots ==>
              slots[n] == if n in s.nodes then Add(SlotIn(before, n), s.nodes[n]) else SlotIn(before, n)
  {
    slots := before;
    var names := s.nodes.Keys;
    while names != {}
      invariant names <= s.nodes.Keys
      invariant slots.Keys == before.Keys + (s.nodes.Keys - names)
      invariant forall n :: n in slots ==>
                  slots[n] == if n in s.nodes && n !in names then Add(SlotIn(before, n), s.nodes[n])
                              else SlotIn(before, n)
      decreases names
    {
      var n :| n in names;
      slots := slots[n := Add(SlotIn(slots, n), s.nodes[n])];
      names := names - {n};
    }
  }

  lemma NamesGrow(seen: seq<Sample>, s: Sample)
    ensures Names(seen + [s]) == Names(seen) + s.nodes.Keys
  {
    assert (seen + [s])[..|seen|] == seen;
  }

  lemma AddReading(seen: seq<Sample>, s: Sample, n: string)
    ensures SlotOf(seen + [s], n) == if n in s.nodes then Add(SlotOf(seen, n), s.nodes[n]) else SlotOf(seen, n)
    ensures n !in Names(seen) ==> SlotOf(seen, n) == Slot(0.0, 0.0, 0.0)
  {
    assert (seen + [s])[..|seen|] == seen;
    CountIsPositive(seen, n);
  }

  method MaxRunning(s: seq<Sample>, p: Peak) returns (m: int)
    requires s != []
    ensures m == Highest(p, s)
    ensures (exists i :: 0 <= i < |s| && Running(p, s[i]) == m) && forall i :: 0 <= i < |s| ==> Running(p, s[i]) <= m
  {
    m := Running(p, s[0]);
    for i := 1 to |s|
      invariant m == Highest(p, s[..i])
      invariant (exists j :: 0 <= j < i && Running(p, s[j]) == m) && forall j :: 0 <= j < i ==> Running(p, s[j]) <= m
    {
      assert s[..i + 1][..i] == s[..i];
      if m < Running(p, s[i]) { m := Running(p, s[i]); }
    }
    assert s[..|s|] == s;
  }

  // ---------------------------------------------------------------- the pass

  /** The buckets already flushed, the open one and where it starts. */
  datatype Pass = Pass(done: seq<seq<Sample>>, cur: seq<Sample>, start: int)

  function PassOver(s: seq<Sample>, step: int): Pass
    requires s != [] && step > 0
  {
    var x := s[|s| - 1];
    if |s| == 1 then Pass([], s, Start(x.ts, step))
    else
      var p := PassOver(s[..|s| - 1], step);
      if x.ts >= p.start + step then Pass(p.done + [p.cur], [x], Start(x.ts, step))
      else p.(cur := p.cur + [x])
  }

  function Groups(s: seq<Sample>, step: int): seq<seq<Sample>>
    requires s != [] && step > 0
  {
    var p := PassOver(s, step);
    p.done + [p.cur]
  }

  ghost predicate NonEmpty(groups: seq<seq<Sample>>) { forall i :: 0 <= i < |groups| ==> groups[i] != [] }

  function Averages(groups: seq<seq<Sample>>, step: int): (r: seq<Sample>)
    requires step > 0 && NonEmpty(groups)
    ensures |r| == |groups|
    ensures forall i :: 0 <= i < |r| ==> r[i] == Average(groups[i], Start(groups[i][0].ts, step))
  {
    if groups == [] then []
    else
      var g := groups[|groups| - 1];
      Averages(groups[..|groups| - 1], step) + [Average(g, Start(g[0].ts, step))]
  }

  function Concat(groups: seq<seq<Sample>>): seq<Sample> {
    if groups == [] then [] else Concat(groups[..|groups| - 1]) + groups[|groups| - 1]
  }

  /** Whatever the input, no sample is lost or reordered and no bucket is empty. */
  lemma {:induction false} Partition(s: seq<Sample>, step: int)
    requires s != [] && step > 0
    ensures NonEmpty(Groups(s, step)) && Concat(Groups(s, step)) == s
    ensures var p := PassOver(s, step); p.cur != [] && p.start == Start(p.cur[0].ts, step)
  {
    var groups := Groups(s, step);
    assert groups[..|groups| - 1] == PassOver(s, step).done;
    if |s| > 1 {
      var s' := s[..|s| - 1];
      Partition(s', step);
      var before := Groups(s', step);
      assert before[..|before| - 1] == PassOver(s', step).done;
      assert forall i :: 0 <= i < |before| ==> before[i] != [];
      assert s == s' + [s[|s| - 1]];
    } else {
      assert groups == [s];
    }
  }

  ghost predicate Multiple(x: int, step: int) { exists k: int :: x == Times(k, step) }

  function Times(k: int, step: int): int { k * step }

  /** Starts that are multiples of the step, each at least one step after the one before. */
  ghost predicate Spaced(starts: seq<int>, step: int) {
    && (forall i :: 0 <= i < |starts| ==> Multiple(starts[i], step))
    && (forall i, j :: 0 <= i < j < |starts| ==> starts[i] + step <= starts[j])
  }

  function Starts(groups: seq<seq<Sample>>, step: int): (r: seq<int>)
    requires step > 0 && NonEmpty(groups)
    ensures |r| == |groups|
    ensures forall i :: 0 <= i < |r| ==> r[i] == Start(groups[i][0].ts, step)
  {
    if groups == [] then [] else Starts(groups[..|groups| - 1], step) + [Start(groups[|groups| - 1][0].ts, step)]
  }

  lemma {:induction false} PassIsSpaced(s: seq<Sample>, step: int)
    requires s != [] && step > 0
    ensures NonEmpty(Groups(s, step)) && Spaced(Starts(Groups(s, step), step), step)
  {
    Partition(s, step);
    var groups, p := Groups(s, step), PassOver(s, step);
    assert groups[..|groups| - 1] == p.done;
    StartIsMultiple(p.cur[0].ts, step);
    if |s| == 1 {
      assert p.done == [];
    } else {
      var s', x := s[..|s| - 1], s[|s| - 1];
      Partition(s', step);
      PassIsSpaced(s', step);
      var p' := PassOver(s', step);
      assert Groups(s', step)[..|p'.done|] == p'.done;
      if x.ts >= p'.start + step {
        NextStart(p'.cur[0].ts, x.ts, step);
        AddStart(Starts(Groups(s', step), step), p'.start, Start(x.ts, step), step);
        assert groups == Groups(s', step) + [[x]];
        assert Starts(groups, step) == Starts(Groups(s', step), step) + [Start(x.ts, step)];
      } else {
        assert Starts(groups, step) == Starts(Groups(s', step), step);
      }
    }
  }

  lemma AddStart(starts: seq<int>, last: int, next: int, step: int)
    requires step > 0 && Spaced(starts, step) && starts != [] && starts[|starts| - 1] == last && last + step <= next
             && Multiple(next, step)
    ensures Spaced(starts + [next], step)
  {
  }

  /** The buckets handed out start at growing multiples of the step. */
  lemma BucketStarts(s: seq<Sample>, step: int)
    requires s != [] && step > 0
    ensures NonEmpty(Groups(s, step))
    ensures var r := Averages(Groups(s, step), step);
            && (forall i :: 0 <= i < |r| ==> Multiple(r[i].ts, step))
            && (forall i, j :: 0 <= i < j < |r| ==> r[i].ts + step <= r[j].ts)
  {
    PassIsSpaced(s, step);
    var starts, r := Starts(Groups(s, step), step), Averages(Groups(s, step), step);
    assert forall i :: 0 <= i < |r| ==> r[i].ts == starts[i];
  }

  // ---------------------------------------------------------------- bucket arithmetic

  lemma StartIsMultiple(ts: int, step: int)
    requires step > 0
    ensures Start(ts, step) == Times(ts / step, step) && Multiple(Start(ts, step), step)
            && Start(ts, step) <= ts < Start(ts, step) + step
  {
  }

  /** The comparison with the end of an earlier sample's bucket compares keys. */
  lemma SameBucket(first: int, ts: int, step: int)
    requires step > 0
    ensures ts >= Start(first, step) + step <==> ts / step > first / step
  {
    var a, b := first / step, ts / step;
    StartIsMultiple(first, step);
    StartIsMultiple(ts, step);
    if b > a { Grows(a + 1, b, step); } else { Grows(b, a, step); }
    NextMultiple(a, step);
  }

  lemma NextStart(first: int, ts: int, step: int)
    requires step > 0 && ts >= Start(first, step) + step
    ensures Start(ts, step) >= Start(first, step) + step
  {
    SameBucket(first, ts, step);
    StartIsMultiple(first, step);
    StartIsMultiple(ts, step);
    Grows(first / step + 1, ts / step, step);
    NextMultiple(first / step, step);
  }

  lemma Grows(a: int, b: int, step: int)
    requires a <= b && step > 0
    ensures Times(a, step) <= Times(b, step)
  {
  }

  lemma NextMultiple(a: int, step: int)
    ensures Times(a + 1, step) == Times(a, step) + step
  {
  }

  // ---------------------------------------------------------------- grouping by key

  /** A partition of `s` into stretches of equal `ts / step`, with growing keys. */
  ghost predicate IsGrouping(groups: seq<seq<Sample>>, s: seq<Sample>, step: int)
    requires step > 0
  {
    && NonEmpty(groups)
    && Concat(groups) == s
    && (forall i, k :: 0 <= i < |groups| && 0 <= k < |groups[i]| ==> Key(groups[i][k], step) == Key(groups[i][0], step))
    && (forall i, j :: 0 <= i < j < |groups| ==> Key(groups[i][0], step) < Key(groups[j][0], step))
  }

  ghost predicate KeysAscend(s: seq<Sample>, step: int)
    requires step > 0
  {
    forall i :: 0 < i < |s| ==> Key(s[i - 1], step) <= Key(s[i], step)
  }

  lemma OrderedTimestampsAscend(s: seq<Sample>, step: int)
    requires step > 0 && forall i :: 0 < i < |s| ==> s[i - 1].ts <= s[i].ts
    ensures KeysAscend(s, step)
  {
    forall i | 0 < i < |s| ensures Key(s[i - 1], step) <= Key(s[i], step) {
      SameBucket(s[i].ts, s[i - 1].ts, step);
      StartIsMultiple(s[i].ts, step);
    }
  }

  /** The pass groups by key exactly when no sample falls in an earlier bucket than the one before it. */
  lemma GroupsByKeyIff(s: seq<Sample>, step: int)
    requires s != [] && step > 0
    ensures IsGrouping(Groups(s, step), s, step) <==> KeysAscend(s, step)
  {
    if KeysAscend(s, step) { GroupsByKey(s, step); }
    if IsGrouping(Groups(s, step), s, step) { GroupingAscends(Groups(s, step), s, step); }
  }

  lemma {:induction false} GroupsByKey(s: seq<Sample>, step: int)
    requires s != [] && step > 0 && KeysAscend(s, step)
    ensures IsGrouping(Groups(s, step), s, step)
    ensures PassOver(s, step).cur != [] && Key(PassOver(s, step).cur[0], step) == Key(s[|s| - 1], step)
  {
    Partition(s, step);
    if |s| > 1 {
      var s', x := s[..|s| - 1], s[|s| - 1];
      Partition(s', step);
      GroupsByKey(s', step);
      var p := PassOver(s', step);
      var before := Groups(s', step);
      SameBucket(p.cur[0].ts, x.ts, step);
      assert Key(s[|s| - 2], step) <= Key(s[|s| - 1], step);
      assert before[..|before| - 1] == p.done && before[|before| - 1] == p.cur;
      if x.ts >= p.start + step {
        assert Groups(s, step) == before + [[x]];
        OpenGroup(before, s', x, step);
      } else {
        assert Groups(s, step) == before[..|before| - 1] + [p.cur + [x]];
        ExtendGroup(before, s', x, step);
      }
      assert s == s' + [x];
    } else {
      assert Groups(s, step) == [s];
    }
  }

  lemma OpenGroup(groups: seq<seq<Sample>>, s: seq<Sample>, x: Sample, step: int)
    requires step > 0 && IsGrouping(groups, s, step) && groups != []
             && Key(groups[|groups| - 1][0], step) < Key(x, step)
    ensures IsGrouping(groups + [[x]], s + [x], step)
  {
    assert (groups + [[x]])[..|groups|] == groups;
  }

  lemma ExtendGroup(groups: seq<seq<Sample>>, s: seq<Sample>, x: Sample, step: int)
    requires step > 0 && IsGrouping(groups, s, step) && groups != []
             && Key(groups[|groups| - 1][0], step) == Key(x, step)
    ensures IsGrouping(groups[..|groups| - 1] + [groups[|groups| - 1] + [x]], s + [x], step)
  {
    var n := |groups| - 1;
    var after := groups[..n] + [groups[n] + [x]];
    assert after[..n] == groups[..n];
    assert Concat(groups[..n]) + (groups[n] + [x]) == s + [x];
  }

  lemma {:induction false} GroupingAscends(groups: seq<seq<Sample>>, s: seq<Sample>, step: int)
    requires step > 0 && IsGrouping(groups, s, step)
    ensures KeysAscend(s, step)
    ensures groups != [] ==> s != [] && Key(s[|s| - 1], step) == Key(groups[|groups| - 1][0], step)
  {
    if groups != [] {
      var g, before := groups[|groups| - 1], groups[..|groups| - 1];
      var s' := Concat(before);
      GroupingAscends(before, s', step);
      assert s == s' + g;
      forall i | 0 < i < |s| ensures Key(s[i - 1], step) <= Key(s[i], step) {
        if i < |s'| {
          assert s[i - 1] == s'[i - 1] && s[i] == s'[i];
        } else if i == |s'| {
          assert s[i - 1] == s'[|s'| - 1] && s[i] == g[0];
        } else {
          assert s[i - 1] == g[i - 1 - |s'|] && s[i] == g[i - |s'|];
        }
      }
    }
  }

  /** There is only one way to group: the pass computes it. */
  lemma {:induction false} GroupingIsUnique(a: seq<seq<Sample>>, b: seq<seq<Sample>>, s: seq<Sample>, step: int)
    requires step > 0 && IsGrouping(a, s, step) && IsGrouping(b, s, step)
    ensures a == b
    decreases |a|
  {
    if a == [] || b == [] {
      ConcatEmpty(a);
      ConcatEmpty(b);
    } else {
      LastGroup(a, s, step);
      LastGroup(b, s, step);
      var n := |s| - |a[|a| - 1]|;
      SameLast(a, b, s, step);
      GroupingIsUnique(a[..|a| - 1], b[..|b| - 1], s[..n], step);
      assert a == a[..|a| - 1] + [a[|a| - 1]] && b == b[..|b| - 1] + [b[|b| - 1]];
    }
  }

  lemma ConcatEmpty(groups: seq<seq<Sample>>)
    requires NonEmpty(groups)
    ensures Concat(groups) == [] <==> groups == []
  {
  }

  /** Position `n` is where the stretch of the last key begins. */
  ghost predicate LastKeyFrom(s: seq<Sample>, n: int, step: int)
    requires step > 0
  {
    && 0 <= n < |s|
    && (forall k :: n <= k < |s| ==> Key(s[k], step) == Key(s[|s| - 1], step))
    && (n > 0 ==> Key(s[n - 1], step) < Key(s[|s| - 1], step))
  }

  lemma LastKeyFromOnePlace(s: seq<Sample>, n: int, m: int, step: int)
    requires step > 0 && LastKeyFrom(s, n, step) && LastKeyFrom(s, m, step)
    ensures n == m
  {
  }

  /** The last group is everything from the first sample with the last key on. */
  lemma LastGroup(groups: seq<seq<Sample>>, s: seq<Sample>, step: int)
    requires step > 0 && IsGrouping(groups, s, step) && groups != []
    ensures var g := groups[|groups| - 1]; var n := |s| - |g|;
            LastKeyFrom(s, n, step) && s[n..] == g && IsGrouping(groups[..|groups| - 1], s[..n], step)
  {
    var g, before := groups[|groups| - 1], groups[..|groups| - 1];
    var n := |s| - |g|;
    assert s == Concat(before) + g && s[..n] == Concat(before);
    GroupingAscends(before, s[..n], step);
    forall k | n <= k < |s| ensures Key(s[k], step) == Key(g[0], step) { assert s[k] == g[k - n]; }
    if n > 0 {
      ConcatEmpty(before);
      assert Key(before[|before| - 1][0], step) < Key(g[0], step) by {
        assert before[|before| - 1] == groups[|groups| - 2];
      }
    }
  }

  lemma SameLast(a: seq<seq<Sample>>, b: seq<seq<Sample>>, s: seq<Sample>, step: int)
    requires step > 0 && IsGrouping(a, s, step) && IsGrouping(b, s, step) && a != [] && b != []
    ensures a[|a| - 1] == b[|b| - 1]
  {
    LastGroup(a, s, step);
    LastGroup(b, s, step);
    LastKeyFromOnePlace(s, |s| - |a[|a| - 1]|, |s| - |b[|b| - 1]|, step);
  }

  // ---------------------------------------------------------------- the downsampler

  lemma PassStep(s: seq<Sample>, i: nat, step: int)
    requires 0 < i < |s| && step > 0
    ensures var p := PassOver(s[..i], step);
            PassOver(s[..i + 1], step)
            == if s[i].ts >= p.start + step then Pass(p.done + [p.cur], [s[i]], Start(s[i].ts, step))
                                          else p.(cur := p.cur + [s[i]])
  {
    assert s[..i + 1][..i] == s[..i];
  }

  lemma PassStarts(s: seq<Sample>, step: int)
    requires s != [] && step > 0
    ensures PassOver(s[..1], step) == Pass([], [s[0]], Start(s[0].ts, step)) && s[0].ts < Start(s[0].ts, step) + step
  {
    StartIsMultiple(s[0].ts, step);
    assert s[..1] == [s[0]];
  }

  lemma AveragesSnoc(done: seq<seq<Sample>>, cur: seq<Sample>, step: int)
    requires step > 0 && NonEmpty(done) && cur != []
    ensures NonEmpty(done + [cur])
            && Averages(done + [cur], step) == Averages(done, step) + [Average(cur, Start(cur[0].ts, step))]
  {
    assert (done + [cur])[..|done|] == done;
  }

  method Downsample(samples: seq<Sample>, step: nat) returns (r: seq<Sample>)
    ensures step == 0 || |samples| <= 1 ==> r == samples
    ensures step > 0 && |samples| > 1 ==> NonEmpty(Groups(samples, step)) && r == Averages(Groups(samples, step), step)
  {
    if step == 0 || |samples| <= 1 { return samples; }
    r := [];
    var start := Start(samples[0].ts, step);
    var cur: seq<Sample> := [];
    PassStarts(samples, step);
    ghost var done: seq<seq<Sample>> := [];
    for i := 0 to |samples|
      invariant i == 0 ==> cur == [] && done == [] && start == Start(samples[0].ts, step)
      invariant i > 0 ==> cur != [] && start == Start(cur[0].ts, step)
      invariant i > 0 ==> Pass(done, cur, start) == PassOver(samples[..i], step)
      invariant NonEmpty(done) && r == Averages(done, step)
    {
      if i > 0 { PassStep(samples, i, step); }
      if samples[i].ts >= start + step {
        if cur != [] {
          AveragesSnoc(done, cur, step);
          var bucket := AvgSamples(cur, start);
          r := r + [bucket];
          done := done + [cur];
        }
        start := Start(samples[i].ts, step);
        cur := [];
      }
      cur := cur + [samples[i]];
    }
    assert samples[..|samples|] == samples;
    if cur != [] {
      AveragesSnoc(done, cur, step);
      var bucket := AvgSamples(cur, start);
      r := r + [bucket];
    }
  }

  // ---------------------------------------------------------------- what averaging keeps

  /** How many readings of a gauge a bucket averages. */
  function Weight(g: Gauge, s: seq<Sample>): real {
    match g
    case NodeCpu(n) => Total(NodeCount(n), s)
    case NodeMem(n) => Total(NodeCount(n), s)
    case _ => |s| as real
  }

  function Product(a: real, b: real): real { a * b }

  function Contribution(g: Gauge, group: seq<Sample>, bucket: Sample): real {
    Product(Weight(g, group), Reading(g, bucket))
  }

  lemma AverageReading(g: Gauge, s: seq<Sample>, ts: int)
    requires s != [] && !g.NodeCount?
    ensures Reading(g, Average(s, ts)) == Mean(g, Weight(g, s), s)
    ensures Weight(g, s) == 0.0 ==> Total(g, s) == 0.0
  {
    match g {
      case NodeCpu(n) => CountIsPositive(s, n);
      case NodeMem(n) => CountIsPositive(s, n);
      case _ =>
    }
  }

  lemma MeanTimesCount(g: Gauge, count: real, s: seq<Sample>)
    requires count == 0.0 ==> Total(g, s) == 0.0
    ensures Product(count, Mean(g, count, s)) == Total(g, s)
  {
  }

  lemma BucketKeepsTotal(g: Gauge, s: seq<Sample>, ts: int)
    requires s != [] && !g.NodeCount?
    ensures Contribution(g, s, Average(s, ts)) == Total(g, s)
  {
    AverageReading(g, s, ts);
    MeanTimesCount(g, Weight(g, s), s);
  }

  function Contributions(g: Gauge, groups: seq<seq<Sample>>, buckets: seq<Sample>): real
    requires |groups| == |buckets|
  {
    if groups == [] then 0.0
    else
      var n := |groups| - 1;
      Contributions(g, groups[..n], buckets[..n]) + Contribution(g, groups[n], buckets[n])
  }

  lemma {:induction false} TotalOfConcat(g: Gauge, a: seq<Sample>, b: seq<Sample>)
    ensures Total(g, a + b) == Total(g, a) + Total(g, b)
  {
    if b == [] {
      assert a + b == a;
    } else {
      TotalOfConcat(g, a, b[..|b| - 1]);
      assert (a + b)[..|a + b| - 1] == a + b[..|b| - 1];
    }
  }

  lemma {:induction false} TotalKept(g: Gauge, groups: seq<seq<Sample>>, step: int)
    requires step > 0 && NonEmpty(groups) && !g.NodeCount?
    ensures Contributions(g, groups, Averages(groups, step)) == Total(g, Concat(groups))
  {
    if groups != [] {
      var n := |groups| - 1;
      TotalKept(g, groups[..n], step);
      assert Averages(groups, step)[..n] == Averages(groups[..n], step);
      TotalOfConcat(g, Concat(groups[..n]), groups[n]);
      BucketKeepsTotal(g, groups[n], Start(groups[n][0].ts, step));
    }
  }

  /** Downsampling redistributes every gauge, cluster-wide and per node, without changing its weighted total. */
  lemma TotalsConserved(g: Gauge, s: seq<Sample>, step: int)
    requires s != [] && step > 0 && !g.NodeCount?
    ensures NonEmpty(Groups(s, step))
    ensures Contributions(g, Groups(s, step), Averages(Groups(s, step), step)) == Total(g, s)
  {
    Partition(s, step);
    TotalKept(g, Groups(s, step), step);
  }

  lemma {:induction false} HighestOfConcat(p: Peak, a: seq<Sample>, b: seq<Sample>)
    requires a != [] && b != []
    ensures var x, y := Highest(p, a), Highest(p, b); Highest(p, a + b) == if x < y then y else x
  {
    var b' := b[..|b| - 1];
    assert (a + b)[..|a + b| - 1] == a + b';
    if b' == [] { assert a + b' == a; } else { HighestOfConcat(p, a, b'); }
  }

  lemma {:induction false} PeakKept(p: Peak, groups: seq<seq<Sample>>, step: int)
    requires step > 0 && NonEmpty(groups) && groups != []
    ensures Concat(groups) != [] && Highest(p, Averages(groups, step)) == Highest(p, Concat(groups))
  {
    var n := |groups| - 1;
    var before := groups[..n];
    assert Averages(groups, step)[..n] == Averages(before, step);
    if before == [] {
      assert Concat(groups) == groups[n];
    } else {
      PeakKept(p, before, step);
      HighestOfConcat(p, Concat(before), groups[n]);
    }
  }

  /** The busiest moment survives downsampling. */
  lemma PeaksConserved(p: Peak, s: seq<Sample>, step: int)
    requires s != [] && step > 0
    ensures NonEmpty(Groups(s, step)) && Highest(p, Averages(Groups(s, step), step)) == Highest(p, s)
  {
    Partition(s, step);
    PeakKept(p, Groups(s, step), step);
  }
}
