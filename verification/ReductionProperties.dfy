/**
 What the reduction tree is for: every part is covered exactly once at every level,
 the walk resumes from durable rows in one fixed order and never meets a changed
 input, and every accepted claim still refers to an original claim of its own parts.
 */
module ReductionProperties {
  import opened Wrappers
  import opened SourceText
  import opened ReductionTree

  // ---------------------------------------------------------------- coverage of the parts

  /** The reference names a draft claim of one of the parts lo..hi-1. */
  predicate RefersInto(ref: Ref, parts: seq<nat>, drafts: map<nat, seq<Text>>, lo: nat, hi: nat) {
    && ref.part in drafts && 0 <= ref.claim < |drafts[ref.part]|
    && exists i :: lo <= i < hi && i < |parts| && parts[i] == ref.part
  }

  predicate ClaimsReferInto(claims: seq<Claim>, parts: seq<nat>, drafts: map<nat, seq<Text>>, lo: nat, hi: nat) {
    forall c, j :: 0 <= c < |claims| && 0 <= j < |claims[c].references| ==>
      RefersInto(claims[c].references[j], parts, drafts, lo, hi)
  }

  /** A node stands for the parts lo..hi-1 and speaks of no others. */
  predicate Stands(node: Node, parts: seq<nat>, drafts: map<nat, seq<Text>>, lo: nat, hi: nat) {
    && lo < hi <= |parts|
    && node.parts == hi - lo
    && ClaimsReferInto(node.claims, parts, drafts, lo, hi)
  }

  /** Consecutive cut points: node k stands for the parts from cuts[k] to cuts[k + 1]. */
  predicate Cover(nodes: seq<Node>, cuts: seq<nat>, parts: seq<nat>, drafts: map<nat, seq<Text>>) {
    && |cuts| == |nodes| + 1
    && cuts[0] == 0 && cuts[|nodes|] == |parts|
    && forall k :: 0 <= k < |nodes| ==> Stands(nodes[k], parts, drafts, cuts[k], cuts[k + 1])
  }

  /** The cut points of the next level: every eighth one, and the end. */
  function EveryEighth(cuts: seq<nat>): seq<nat>
    requires |cuts| > 0
  {
    var n := |cuts| - 1;
    seq(Ceil8(n) + 1, k requires 0 <= k <= Ceil8(n) => cuts[if 8 * k < n then 8 * k else n])
  }

  lemma {:induction false} CutsAscend(nodes: seq<Node>, cuts: seq<nat>, parts: seq<nat>, drafts: map<nat, seq<Text>>,
                                      a: nat, b: nat)
    requires Cover(nodes, cuts, parts, drafts) && a <= b <= |nodes|
    ensures cuts[a] <= cuts[b] && (a < b ==> cuts[a] < cuts[b])
    decreases b - a
  {
    if a < b {
      assert Stands(nodes[a], parts, drafts, cuts[a], cuts[a + 1]);
      CutsAscend(nodes, cuts, parts, drafts, a + 1, b);
    }
  }

  lemma {:induction false} GroupParts(nodes: seq<Node>, cuts: seq<nat>, parts: seq<nat>, drafts: map<nat, seq<Text>>,
                                      a: nat, b: nat)
    requires Cover(nodes, cuts, parts, drafts) && a <= b <= |nodes|
    ensures cuts[a] + SumParts(nodes[a..b]) == cuts[b]
    decreases b - a
  {
    if a < b {
      GroupParts(nodes, cuts, parts, drafts, a + 1, b);
      assert nodes[a..b][1..] == nodes[a + 1..b];
      assert Stands(nodes[a], parts, drafts, cuts[a], cuts[a + 1]);
    }
  }

  /** A reference of a node's own claim refers to the parts that the node stands for. */
  lemma NodeRefersInto(node: Node, parts: seq<nat>, drafts: map<nat, seq<Text>>, lo: nat, hi: nat, i: nat, ref: Ref)
    requires Stands(node, parts, drafts, lo, hi) && i < |node.claims| && ref in node.claims[i].references
    ensures RefersInto(ref, parts, drafts, lo, hi)
  {
    hide RefersInto;
    var m :| 0 <= m < |node.claims[i].references| && node.claims[i].references[m] == ref;
    assert RefersInto(node.claims[i].references[m], parts, drafts, lo, hi);
  }

  lemma RefersWider(ref: Ref, parts: seq<nat>, drafts: map<nat, seq<Text>>, lo: nat, hi: nat, a: nat, b: nat)
    requires RefersInto(ref, parts, drafts, lo, hi) && a <= lo && hi <= b <= |parts|
    ensures RefersInto(ref, parts, drafts, a, b)
  {
  }

  lemma AllowedStaysInside(ref: Ref, nodes: seq<Node>, cuts: seq<nat>, parts: seq<nat>, drafts: map<nat, seq<Text>>,
                           a: nat, b: nat)
    requires Cover(nodes, cuts, parts, drafts) && a <= b <= |nodes| && Allowed(nodes[a..b], ref)
    ensures RefersInto(ref, parts, drafts, cuts[a], cuts[b])
  {
    hide RefersInto, Stands;
    var k, i :| 0 <= k < |nodes[a..b]| && 0 <= i < |nodes[a..b][k].claims| && ref in nodes[a..b][k].claims[i].references;
    assert Stands(nodes[a + k], parts, drafts, cuts[a + k], cuts[a + k + 1]);
    NodeRefersInto(nodes[a + k], parts, drafts, cuts[a + k], cuts[a + k + 1], i, ref);
    CutsAscend(nodes, cuts, parts, drafts, a, a + k);
    CutsAscend(nodes, cuts, parts, drafts, a + k + 1, b);
    CutsAscend(nodes, cuts, parts, drafts, b, |nodes|);
    RefersWider(ref, parts, drafts, cuts[a + k], cuts[a + k + 1], cuts[a], cuts[b]);
  }

  lemma AcceptableStaysInside(claims: seq<Claim>, nodes: seq<Node>, cuts: seq<nat>, parts: seq<nat>, drafts: map<nat,
                              seq<Text>>, a: nat, b: nat)
    requires Cover(nodes, cuts, parts, drafts) && a <= b <= |nodes|
    requires Acceptable(claims, nodes[a..b])
    ensures ClaimsReferInto(claims, parts, drafts, cuts[a], cuts[b])
  {
    hide Stands, Allowed, RefersInto, Accept;
    forall c, j | 0 <= c < |claims| && 0 <= j < |claims[c].references|
      ensures RefersInto(claims[c].references[j], parts, drafts, cuts[a], cuts[b])
    {
      assert ClaimAcceptable(claims[c], nodes[a..b]);
      AllowedStaysInside(claims[c].references[j], nodes, cuts, parts, drafts, a, b);
    }
  }

  /** The node that one group is reduced to stands for all the parts of the group. */
  lemma {:induction false} GroupStands(nodes: seq<Node>, cuts: seq<nat>, parts: seq<nat>, drafts: map<nat, seq<Text>>,
                    level: nat, index: nat, saved: Reductions)
    requires Cover(nodes, cuts, parts, drafts) && FAN_IN * index < |nodes|
    requires WalkLevel(nodes, level, index, saved).Nodes?
    ensures var w := WalkLevel(nodes, level, index, saved);
            |w.nodes| > 0 && Stands(w.nodes[0], parts, drafts, EveryEighth(cuts)[index], EveryEighth(cuts)[index + 1])
  {
    var a := 8 * index;
    var b := if a + 8 <= |nodes| then a + 8 else |nodes|;
    var group := Group(nodes, index);
    assert group == nodes[a..b];
    assert EveryEighth(cuts)[index] == cuts[a] && EveryEighth(cuts)[index + 1] == cuts[b];
    CutsAscend(nodes, cuts, parts, drafts, a, b);
    CutsAscend(nodes, cuts, parts, drafts, b, |nodes|);
    if |group| == 1 {
      assert Stands(nodes[a], parts, drafts, cuts[a], cuts[a + 1]);
    } else {
      GroupParts(nodes, cuts, parts, drafts, a, b);
      AcceptableStaysInside(saved[ReduceNode(level, index)].claims, nodes, cuts, parts, drafts, a, b);
    }
  }

  /** From position `index` of the next level on, node k stands for the parts between its two cut points. */
  predicate CoverFrom(nodes: seq<Node>, cuts: seq<nat>, index: nat, parts: seq<nat>, drafts: map<nat, seq<Text>>) {
    && |cuts| == index + |nodes| + 1
    && forall k :: 0 <= k < |nodes| ==> Stands(nodes[k], parts, drafts, cuts[index + k], cuts[index + k + 1])
  }

  lemma CoverCons(node: Node, nodes: seq<Node>, cuts: seq<nat>, index: nat, parts: seq<nat>, drafts: map<nat,
                  seq<Text>>)
    requires CoverFrom(nodes, cuts, index + 1, parts, drafts)
    requires Stands(node, parts, drafts, cuts[index], cuts[index + 1])
    ensures CoverFrom([node] + nodes, cuts, index, parts, drafts)
  {
    var all := [node] + nodes;
    forall k | 0 <= k < |all| ensures Stands(all[k], parts, drafts, cuts[index + k], cuts[index + k + 1]) {
      if k > 0 {
        assert Stands(nodes[k - 1], parts, drafts, cuts[index + 1 + (k - 1)], cuts[index + 1 + (k - 1) + 1]);
      }
    }
  }

  lemma {:induction false} LevelCovers(nodes: seq<Node>, cuts: seq<nat>, parts: seq<nat>, drafts: map<nat, seq<Text>>,
                                       level: nat, index: nat, saved: Reductions)
    requires Cover(nodes, cuts, parts, drafts)
    requires index <= Ceil8(|nodes|)
    requires WalkLevel(nodes, level, index, saved).Nodes?
    ensures CoverFrom(WalkLevel(nodes, level, index, saved).nodes, EveryEighth(cuts), index, parts, drafts)
    decreases |nodes| - FAN_IN * index
  {
    if FAN_IN * index < |nodes| {
      LevelCovers(nodes, cuts, parts, drafts, level, index + 1, saved);
      GroupStands(nodes, cuts, parts, drafts, level, index, saved);
      var w, rest := WalkLevel(nodes, level, index, saved), WalkLevel(nodes, level, index + 1, saved);
      CoverCons(w.nodes[0], rest.nodes, EveryEighth(cuts), index, parts, drafts);
      assert w.nodes == [w.nodes[0]] + rest.nodes;
    }
  }

  /** Every level reached from a covering one covers every part exactly once again. */
  lemma {:induction false} ClimbCovers(nodes: seq<Node>, cuts: seq<nat>, parts: seq<nat>, drafts: map<nat,
                                       seq<Text>>, level: nat, saved: Reductions)
    returns (final: seq<nat>)
    requires Cover(nodes, cuts, parts, drafts)
    requires Climb(nodes, level, saved).Nodes?
    ensures Cover(Climb(nodes, level, saved).nodes, final, parts, drafts)
    ensures |Climb(nodes, level, saved).nodes| <= FAN_IN
    decreases |nodes|
  {
    if |nodes| <= FAN_IN {
      final := cuts;
    } else {
      var reduced := WalkLevel(nodes, level + 1, 0, saved).nodes;
      LevelCovers(nodes, cuts, parts, drafts, level + 1, 0, saved);
      var next := EveryEighth(cuts);
      assert CoverFrom(reduced, next, 0, parts, drafts);
      final := ClimbCovers(reduced, next, parts, drafts, level + 1, saved);
    }
  }

  /** A claimed reference is one that the final step finds among the drafts. */
  predicate InRange(drafts: map<nat, seq<Text>>, ref: Ref) {
    ref.part in drafts && 0 <= ref.claim < |drafts[ref.part]|
  }

  /**
   When the walk hands over its nodes for the synthesis, there are at most eight, their
   part counts add up to the number of parts, and whatever reply is accepted against them
   refers only to claims that exist in the original drafts.
   */
  lemma SynthesisIsGrounded(parts: seq<nat>, drafts: map<nat, seq<Text>>, saved: Reductions, reply: seq<Claim>)
    requires Next(parts, drafts, saved).Nodes?
    ensures var nodes := Next(parts, drafts, saved).nodes;
            && |nodes| <= FAN_IN
            && SumParts(nodes) == |parts|
            && (Acceptable(reply, nodes) ==>
                  forall c, j :: 0 <= c < |reply| && 0 <= j < |reply[c].references| ==> InRange(drafts, reply[c].references[j]))
  {
    assert forall i :: 0 <= i < |parts| ==> parts[i] in Elements(parts);
    var nodes := Next(parts, drafts, saved).nodes;
    var cuts := ClimbCovers(Leaves(parts, drafts), seq(|parts| + 1, i requires 0 <= i <= |parts| => i), parts, drafts, 0, saved);
    GroupParts(nodes, cuts, parts, drafts, 0, |nodes|);
    assert nodes[0..|nodes|] == nodes;
    if Acceptable(reply, nodes) {
      AcceptableStaysInside(reply, nodes, cuts, parts, drafts, 0, |nodes|);
      forall c, j | 0 <= c < |reply| && 0 <= j < |reply[c].references| ensures InRange(drafts, reply[c].references[j]) {
        assert RefersInto(reply[c].references[j], parts, drafts, cuts[0], cuts[|nodes|]);
      }
    }
  }

  /** A level is passed only over saved rows that were made for exactly the groups it now has, and still are acceptable. */
  lemma {:induction false} PassedChecked(nodes: seq<Node>, level: nat, index: nat, saved: Reductions, k: nat)
    requires WalkLevel(nodes, level, index, saved).Nodes? && index <= k && FAN_IN * k < |nodes| && |Group(nodes, k)| >= 2
    ensures ReduceNode(level, k) in saved && saved[ReduceNode(level, k)].input == Group(nodes, k)
    ensures Acceptable(saved[ReduceNode(level, k)].claims, Group(nodes, k))
    decreases k - index
  {
    hide Acceptable;
    if index < k { PassedChecked(nodes, level, index + 1, saved, k); }
  }

  /** Over more than eight parts, with nothing saved, the first reduction asked for is that of the first eight parts. */
  lemma {:induction false} FirstGroupFirst(parts: seq<nat>, drafts: map<nat, seq<Text>>)
    requires drafts.Keys == Elements(parts) && |parts| > 8
    ensures var w := Next(parts, drafts, map[]);
      && w.Missing? && w.id == ReduceNode(1, 0) && |w.group| == 8
      && forall i :: 0 <= i < 8 ==> w.group[i].id == PartNode(parts[i])
  {
    assert forall i :: 0 <= i < |parts| ==> parts[i] in Elements(parts);
    var leaves := Leaves(parts, drafts);
    assert WalkLevel(leaves, 1, 0, map[]) == Missing(ReduceNode(1, 0), Group(leaves, 0));
    assert Group(leaves, 0) == leaves[0..8];
  }

  /** What the walk asks for is a whole group of its level, with at least two nodes. */
  lemma {:induction false} MissingIsAGroup(nodes: seq<Node>, level: nat, index: nat, saved: Reductions)
    requires WalkLevel(nodes, level, index, saved).Missing?
    ensures var w := WalkLevel(nodes, level, index, saved);
            exists k: nat :: index <= k && FAN_IN * k < |nodes| && w.id == ReduceNode(level, k) && w.group == Group(nodes, k) && |w.group| > 1
    decreases |nodes| - FAN_IN * index
  {
    var group := Group(nodes, index);
    if |group| == 1 || ReduceNode(level, index) in saved {
      MissingIsAGroup(nodes, level, index + 1, saved);
    }
  }

  // ---------------------------------------------------------------- distinct node ids

  predicate LevelIds(nodes: seq<Node>, level: nat) {
    forall k :: 0 <= k < |nodes| ==>
      match nodes[k].id
      case PartNode(_) => level == 0 || k == |nodes| - 1
      case ReduceNode(l, i) => (l == level && i == k && level > 0) || (k == |nodes| - 1 && 0 < l < level)
  }

  lemma {:induction false} LevelIdsStep(nodes: seq<Node>, level: nat, index: nat, saved: Reductions)
    requires LevelIds(nodes, level) && FAN_IN * index <= |nodes| + 7
    requires WalkLevel(nodes, level + 1, index, saved).Nodes?
    ensures var reduced := WalkLevel(nodes, level + 1, index, saved).nodes;
            forall k :: 0 <= k < |reduced| ==>
              reduced[k].id == ReduceNode(level + 1, index + k)
              || (k == |reduced| - 1 && reduced[k] == nodes[|nodes| - 1])
    decreases |nodes| - FAN_IN * index
  {
    if FAN_IN * index < |nodes| {
      LevelIdsStep(nodes, level, index + 1, saved);
      var reduced := WalkLevel(nodes, level + 1, index, saved).nodes;
      var rest := WalkLevel(nodes, level + 1, index + 1, saved).nodes;
      assert reduced[1..] == rest;
      forall k | 0 < k < |reduced|
        ensures reduced[k].id == ReduceNode(level + 1, index + k)
                || (k == |reduced| - 1 && reduced[k] == nodes[|nodes| - 1])
      {
        assert reduced[k] == rest[k - 1];
      }
    }
  }

  lemma ReducedIds(nodes: seq<Node>, level: nat, saved: Reductions)
    requires LevelIds(nodes, level) && WalkLevel(nodes, level + 1, 0, saved).Nodes?
    ensures LevelIds(WalkLevel(nodes, level + 1, 0, saved).nodes, level + 1)
  {
    hide WalkLevel;
    LevelIdsStep(nodes, level, 0, saved);
  }

  lemma {:induction false} ClimbIds(nodes: seq<Node>, level: nat, saved: Reductions)
    requires LevelIds(nodes, level) && Climb(nodes, level, saved).Nodes?
    ensures exists final: nat :: LevelIds(Climb(nodes, level, saved).nodes, final) && final >= level
    decreases |nodes|
  {
    hide LevelIds, WalkLevel;
    if |nodes| > FAN_IN {
      ReducedIds(nodes, level, saved);
      ClimbIds(WalkLevel(nodes, level + 1, 0, saved).nodes, level + 1, saved);
    }
  }

  /** No two nodes offered to the synthesis share an id. */
  lemma NodeIdsDistinct(parts: seq<nat>, drafts: map<nat, seq<Text>>, saved: Reductions)
    requires Next(parts, drafts, saved).Nodes?
    requires forall i, j :: 0 <= i < j < |parts| ==> parts[i] != parts[j]
    ensures var nodes := Next(parts, drafts, saved).nodes;
            forall i, j :: 0 <= i < j < |nodes| ==> nodes[i].id != nodes[j].id
  {
    assert forall i :: 0 <= i < |parts| ==> parts[i] in Elements(parts);
    var leaves := Leaves(parts, drafts);
    if |leaves| > FAN_IN {
      assert LevelIds(leaves, 0);
      ReducedIds(leaves, 0, saved);
      ClimbIds(WalkLevel(leaves, 1, 0, saved).nodes, 1, saved);
    }
  }

  // ---------------------------------------------------------------- the fixed order of reductions

  /** The reductions of one level over `count` nodes, from group `index` on. */
  function LevelSchedule(count: nat, level: nat, index: nat): (ids: seq<NodeId>)
    ensures FAN_IN * index <= count + 7 ==> |ids| <= Ceil8(count) - index
    decreases count - FAN_IN * index
  {
    if FAN_IN * index >= count then []
    else (if count - FAN_IN * index == 1 then [] else [ReduceNode(level, index)]) + LevelSchedule(count, level, index + 1)
  }

  /** Every reduction that a tree over `count` nodes needs, in the order they are asked for. It depends on nothing else. */
  function Schedule(count: nat, level: nat): seq<NodeId>
    decreases count
  {
    if count <= FAN_IN then [] else LevelSchedule(count, level + 1, 0) + Schedule(Ceil8(count), level + 1)
  }

  /** A tree over n parts needs fewer than n reductions. */
  lemma {:induction false} FewerReductionsThanParts(count: nat, level: nat)
    requires count > 0
    ensures |Schedule(count, level)| < count
    decreases count
  {
    if count > FAN_IN {
      FewerReductionsThanParts(Ceil8(count), level + 1);
    }
  }

  /** Consecutive groups of one level, from `index` on, each with more than one node. */
  predicate Consecutive(ids: seq<NodeId>, count: nat, level: nat, index: nat) {
    forall k :: 0 <= k < |ids| ==> ids[k] == ReduceNode(level, index + k) && 8 * (index + k) + 1 < count
  }

  lemma ConsecutiveCons(ids: seq<NodeId>, count: nat, level: nat, index: nat)
    requires Consecutive(ids, count, level, index + 1) && 8 * index + 1 < count
    ensures Consecutive([ReduceNode(level, index)] + ids, count, level, index)
  {
    var all := [ReduceNode(level, index)] + ids;
    forall k | 0 <= k < |all| ensures all[k] == ReduceNode(level, index + k) && 8 * (index + k) + 1 < count {
      if k > 0 {
        assert all[k] == ids[k - 1];
      }
    }
  }

  lemma {:induction false} LevelScheduleIds(count: nat, level: nat, index: nat)
    ensures var ids := LevelSchedule(count, level, index);
            Consecutive(ids, count, level, index) && 8 * (index + |ids|) + 1 >= count
    decreases count - FAN_IN * index
  {
    if FAN_IN * index < count {
      LevelScheduleIds(count, level, index + 1);
      var rest := LevelSchedule(count, level, index + 1);
      if count - FAN_IN * index == 1 {
        assert rest == [] && LevelSchedule(count, level, index) == [];
      } else {
        ConsecutiveCons(rest, count, level, index);
      }
    }
  }

  /** Reductions above the given level, none asked for twice. */
  predicate DistinctAbove(ids: seq<NodeId>, level: nat) {
    && (forall k :: 0 <= k < |ids| ==> ids[k].ReduceNode? && ids[k].level > level)
    && (forall i, j :: 0 <= i < j < |ids| ==> ids[i] != ids[j])
  }

  lemma {:induction false} ScheduleIds(count: nat, level: nat)
    ensures DistinctAbove(Schedule(count, level), level)
    decreases count
  {
    if count > FAN_IN {
      LevelScheduleIds(count, level + 1, 0);
      ScheduleIds(Ceil8(count), level + 1);
      var here := LevelSchedule(count, level + 1, 0);
      var above := Schedule(Ceil8(count), level + 1);
      assert Schedule(count, level) == here + above;
      forall i | 0 <= i < |here| ensures here[i] == ReduceNode(level + 1, i) {
        assert here[i] == ReduceNode(level + 1, 0 + i);
      }
    }
  }

  // ---------------------------------------------------------------- resuming from durable rows

  /** The rows of this level are exactly those of its first `done` groups, each saved for the group it still sees. */
  ghost predicate LevelSaved(nodes: seq<Node>, level: nat, saved: Reductions, done: nat) {
    && done <= |LevelSchedule(|nodes|, level, 0)|
    && (forall i: nat :: ReduceNode(level, i) in saved <==> i < done)
    && (forall i: nat :: i < done && FAN_IN * i < |nodes| ==>
          (ReduceNode(level, i) in saved ==>
             saved[ReduceNode(level, i)].input == Group(nodes, i) && Acceptable(saved[ReduceNode(level, i)].claims, Group(nodes, i))))
  }

  ghost predicate NothingAbove(saved: Reductions, level: nat) {
    forall id :: id in saved ==> id.ReduceNode? && id.level <= level
  }

  /** Exactly the first `done` reductions of the schedule have been saved. */
  ghost predicate Progress(nodes: seq<Node>, level: nat, saved: Reductions, done: nat)
    decreases |nodes|
  {
    if |nodes| <= FAN_IN then done == 0 && NothingAbove(saved, level)
    else
      var here := |LevelSchedule(|nodes|, level + 1, 0)|;
      if done < here then LevelSaved(nodes, level + 1, saved, done) && NothingAbove(saved, level + 1)
      else
        && LevelSaved(nodes, level + 1, saved, here)
        && WalkLevel(nodes, level + 1, 0, saved).Nodes?
        && Progress(WalkLevel(nodes, level + 1, 0, saved).nodes, level + 1, saved, done - here)
  }

  lemma {:induction false} WalkSavedLevel(nodes: seq<Node>, level: nat, saved: Reductions, done: nat, index: nat)
    requires LevelSaved(nodes, level, saved, done)
    requires index <= done
    ensures var w := WalkLevel(nodes, level, index, saved);
            if done < |LevelSchedule(|nodes|, level, 0)|
            then FAN_IN * done < |nodes| && w == Missing(ReduceNode(level, done), Group(nodes, done))
            else w.Nodes?
    decreases done - index
  {
    hide Acceptable;
    LevelScheduleIds(|nodes|, level, 0);
    var ids := LevelSchedule(|nodes|, level, 0);
    if done < |ids| {
      assert ids[done] == ReduceNode(level, 0 + done);
    }
    if index < done {
      assert ids[index] == ReduceNode(level, 0 + index);
      assert FAN_IN * index + 1 < |nodes|;
      assert ReduceNode(level, index) in saved;
      WalkSavedLevel(nodes, level, saved, done, index + 1);
    } else if done == |ids| {
      assert FAN_IN * done + 1 >= |nodes|;
      if FAN_IN * done < |nodes| {
        assert |Group(nodes, done)| == 1;
        assert WalkLevel(nodes, level, index + 1, saved) == Nodes([]);
      }
    } else {
      assert FAN_IN * done + 1 < |nodes|;
      assert |Group(nodes, done)| > 1;
    }
  }

  /**
   The walk asks for the next reduction of the schedule, or is ready: a saved row never
   disagrees with the group it was made for.
   */
  lemma {:induction false} WalkFollowsSchedule(nodes: seq<Node>, level: nat, saved: Reductions, done: nat)
    requires Progress(nodes, level, saved, done)
    ensures done <= |Schedule(|nodes|, level)|
    ensures !Climb(nodes, level, saved).Broken?
    ensures var w := Climb(nodes, level, saved);
            if done < |Schedule(|nodes|, level)| then w.Missing? && w.id == Schedule(|nodes|, level)[done] && w.id !in saved
            else w.Nodes?
    decreases |nodes|
  {
    hide Acceptable;
    if |nodes| > FAN_IN {
      var here := LevelSchedule(|nodes|, level + 1, 0);
      LevelScheduleIds(|nodes|, level + 1, 0);
      var above := Schedule(Ceil8(|nodes|), level + 1);
      assert Schedule(|nodes|, level) == here + above;
      var w := WalkLevel(nodes, level + 1, 0, saved);
      if done < |here| {
        WalkSavedLevel(nodes, level + 1, saved, done, 0);
        assert here[done] == ReduceNode(level + 1, 0 + done);
        assert Climb(nodes, level, saved) == w;
      } else {
        WalkFollowsSchedule(w.nodes, level + 1, saved, done - |here|);
        assert |w.nodes| == Ceil8(|nodes|);
        assert Climb(nodes, level, saved) == Climb(w.nodes, level + 1, saved);
      }
    }
  }

  lemma {:induction false} OtherLevelUnchanged(nodes: seq<Node>, level: nat, index: nat, saved: Reductions,
          id: NodeId, row: Reduction)
    requires id.ReduceNode? && id.level != level
    ensures WalkLevel(nodes, level, index, saved[id := row]) == WalkLevel(nodes, level, index, saved)
    decreases |nodes| - FAN_IN * index
  {
    if FAN_IN * index < |nodes| {
      OtherLevelUnchanged(nodes, level, index + 1, saved, id, row);
    }
  }

  lemma {:induction false} ClimbMissingLevel(nodes: seq<Node>, level: nat, saved: Reductions)
    requires Climb(nodes, level, saved).Missing?
    ensures var w := Climb(nodes, level, saved); w.id.ReduceNode? && w.id.level > level
    decreases |nodes|
  {
    var w := WalkLevel(nodes, level + 1, 0, saved);
    if w.Nodes? {
      ClimbMissingLevel(w.nodes, level + 1, saved);
    } else {
      MissingIsAGroup(nodes, level + 1, 0, saved);
    }
  }

  /** Saving an accepted reply for the group that was asked for advances the schedule by exactly one. */
  lemma {:induction false} SavingAdvances(nodes: seq<Node>, level: nat, saved: Reductions, done: nat,
                                          claims: seq<Claim>)
    requires Progress(nodes, level, saved, done)
    requires Climb(nodes, level, saved).Missing?
    requires Acceptable(claims, Climb(nodes, level, saved).group)
    ensures var w := Climb(nodes, level, saved);
            Progress(nodes, level, saved[w.id := Reduction(w.group, claims)], done + 1)
    decreases |nodes|
  {
    hide Acceptable;
    hide Group;
    var w := Climb(nodes, level, saved);
    var after := saved[w.id := Reduction(w.group, claims)];
    var here := |LevelSchedule(|nodes|, level + 1, 0)|;
    LevelScheduleIds(|nodes|, level + 1, 0);
    if done < here {
      WalkSavedLevel(nodes, level + 1, saved, done, 0);
      assert w == Missing(ReduceNode(level + 1, done), Group(nodes, done));
      assert LevelSaved(nodes, level + 1, after, done + 1);
      if done + 1 == here {
        WalkSavedLevel(nodes, level + 1, after, done + 1, 0);
        var reduced := WalkLevel(nodes, level + 1, 0, after).nodes;
        EmptyAbove(reduced, level + 1, after);
      }
    } else {
      var reduced := WalkLevel(nodes, level + 1, 0, saved).nodes;
      ClimbMissingLevel(reduced, level + 1, saved);
      OtherLevelUnchanged(nodes, level + 1, 0, saved, w.id, Reduction(w.group, claims));
      SavingAdvances(reduced, level + 1, saved, done - here, claims);
      assert LevelSaved(nodes, level + 1, after, here);
    }
  }

  lemma {:induction false} EmptyAbove(nodes: seq<Node>, level: nat, saved: Reductions)
    requires NothingAbove(saved, level)
    ensures Progress(nodes, level, saved, 0)
  {
    if |nodes| > FAN_IN {
      LevelScheduleIds(|nodes|, level + 1, 0);
      var ids := LevelSchedule(|nodes|, level + 1, 0);
      assert |ids| > 0;
      assert LevelSaved(nodes, level + 1, saved, 0);
    }
  }
}
