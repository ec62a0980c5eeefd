/**
 What every reachable summary job satisfies, and how its work goes forward: stages are
 done in one fixed order, a done stage never comes back, and a changed reduction input
 is never met.
 */
module SummaryJobProperties {
  import opened Wrappers
  import opened SourceText
  import Plan = SummaryPlan
  import Tree = ReductionTree
  import TreeFacts = ReductionProperties
  import opened SummaryJob

  predicate DistinctParts(parts: seq<Plan.Part>) {
    forall i, j :: 0 <= i < j < |parts| ==> parts[i].id != parts[j].id
  }

  function JobLeaves(job: Job): seq<Tree.Node>
    requires AllDrafted(job)
  {
    assert forall i :: 0 <= i < |PartIds(job)| ==> PartIds(job)[i] in Tree.Elements(PartIds(job));
    Tree.Leaves(PartIds(job), DraftTexts(job.drafts))
  }

  /** Drafts belong to planned parts; reductions are exactly the first ones of the schedule, and start when all parts are drafted. */
  ghost predicate Sound(job: Job) {
    && DistinctParts(job.parts) && job.parts != []
    && job.drafts.Keys <= Tree.Elements(PartIds(job))
    && (if AllDrafted(job) then exists done: nat :: TreeFacts.Progress(JobLeaves(job), 0, job.reductions, done)
        else job.reductions == map[] && job.record.None?)
  }

  predicate StageDone(job: Job, stage: Stage) {
    || job.record.Some?
    || match stage
       case PartStage(part) => part in job.drafts
       case ReduceStage(node) => node in job.reductions
       case Synthesis => false
  }

  /** The whole course of a job: its parts, then the reductions of its tree, then the synthesis. */
  function Course(parts: seq<Plan.Part>): seq<Stage> {
    seq(|parts|, i requires 0 <= i < |parts| => PartStage(parts[i].id)) + TreeStages(|parts|) + [Synthesis]
  }

  function TreeStages(count: nat): seq<Stage> {
    var ids := TreeFacts.Schedule(count, 0);
    seq(|ids|, i requires 0 <= i < |ids| => ReduceStage(ids[i]))
  }

  lemma AllDraftedIff(job: Job)
    requires job.drafts.Keys <= Tree.Elements(PartIds(job))
    ensures AllDrafted(job) <==> FirstUndrafted(job.parts, job.drafts).None?
  {
    var ids := PartIds(job);
    if FirstUndrafted(job.parts, job.drafts).None? {
      forall p | p in Tree.Elements(ids) ensures p in job.drafts.Keys {
        var i :| 0 <= i < |ids| && ids[i] == p;
        assert job.parts[i].id == p;
      }
    } else {
      var p := FirstUndrafted(job.parts, job.drafts).value;
      var i :| 0 <= i < |job.parts| && job.parts[i].id == p;
      assert ids[i] == p;
      assert p in Tree.Elements(ids);
    }
  }

  lemma {:induction false} FirstUndraftedIndex(parts: seq<Plan.Part>, drafts: map<nat,
          seq<DraftClaim>>) returns (k: nat)
    requires FirstUndrafted(parts, drafts).Some?
    ensures k < |parts| && parts[k].id == FirstUndrafted(parts, drafts).value && parts[k].id !in drafts
    ensures forall i :: 0 <= i < k ==> parts[i].id in drafts
  {
    if parts[0].id !in drafts {
      k := 0;
    } else {
      var j := FirstUndraftedIndex(parts[1..], drafts);
      k := j + 1;
    }
  }

  predicate FirstNotDone(job: Job, course: seq<Stage>, k: nat) {
    k < |course| && !StageDone(job, course[k]) && forall i :: 0 <= i < k ==> StageDone(job, course[i])
  }

  /** What the tree of a fully drafted job answers. */
  lemma TreeFollowsSchedule(job: Job) returns (done: nat)
    requires Sound(job) && AllDrafted(job)
    ensures FirstSaved(TreeFacts.Schedule(|job.parts|, 0), job.reductions, done)
    ensures var ids := TreeFacts.Schedule(|job.parts|, 0);
            var w := Tree.Next(PartIds(job), DraftTexts(job.drafts), job.reductions);
            if done < |ids| then w.Missing? && w.id == ids[done] && w.id !in job.reductions else w.Nodes?
  {
    var leaves := JobLeaves(job);
    done :| TreeFacts.Progress(leaves, 0, job.reductions, done);
    TreeFacts.WalkFollowsSchedule(leaves, 0, job.reductions, done);
    SavedAreFirst(leaves, 0, job.reductions, done);
    assert |leaves| == |job.parts|;
  }

  lemma {:induction false} CourseAt(parts: seq<Plan.Part>, i: nat)
    requires i <= |parts| + |TreeFacts.Schedule(|parts|, 0)|
    ensures var n, ids := |parts|, TreeFacts.Schedule(|parts|, 0);
            && |Course(parts)| == n + |ids| + 1
            && Course(parts)[i] == if i < n then PartStage(parts[i].id) else if i < n + |ids| then ReduceStage(ids[i - n]) else Synthesis
  {
  }

  /**
   The rows of a sound job always name a next stage, never an error: it is the first
   stage of the course that is not done. REDUCTION_INPUT_CHANGED cannot happen.
   */
  lemma NextIsFirstNotDone(job: Job) returns (k: nat)
    requires Sound(job) && job.record.None?
    ensures NextTask(job).Ok? && NextTask(job).value.Task?
    ensures FirstNotDone(job, Course(job.parts), k) && NextTask(job).value.stage == Course(job.parts)[k]
  {
    hide TreeFacts.Progress, Tree.Next, Course, JobLeaves, TreeFacts.Schedule;
    AllDraftedIff(job);
    var n := |job.parts|;
    if FirstUndrafted(job.parts, job.drafts).Some? {
      k := FirstUndraftedIndex(job.parts, job.drafts);
    } else {
      var done := TreeFollowsSchedule(job);
      k := n + done;
      SmallTree(n);
    }
    hide Sound, PartIds, DraftTexts;
    CourseAt(job.parts, k);
    forall i | 0 <= i < k ensures StageDone(job, Course(job.parts)[i]) {
      CourseAt(job.parts, i);
    }
  }

  lemma {:induction false} SmallTree(n: nat)
    ensures n <= Tree.FAN_IN ==> TreeFacts.Schedule(n, 0) == []
  {
  }

  predicate FirstSaved(ids: seq<Tree.NodeId>, saved: Tree.Reductions, done: nat) {
    done <= |ids| && forall i :: 0 <= i < done ==> ids[i] in saved
  }

  lemma {:induction false} SavedAreFirst(nodes: seq<Tree.Node>, level: nat, saved: Tree.Reductions, done: nat)
    requires TreeFacts.Progress(nodes, level, saved, done)
    ensures FirstSaved(TreeFacts.Schedule(|nodes|, level), saved, done)
    decreases |nodes|
  {
    if |nodes| > Tree.FAN_IN {
      var here := TreeFacts.LevelSchedule(|nodes|, level + 1, 0);
      var above := TreeFacts.Schedule(Tree.Ceil8(|nodes|), level + 1);
      assert TreeFacts.Schedule(|nodes|, level) == here + above;
      LevelFirstSaved(nodes, level + 1, saved, if done < |here| then done else |here|);
      if done >= |here| {
        var reduced := Tree.WalkLevel(nodes, level + 1, 0, saved).nodes;
        SavedAreFirst(reduced, level + 1, saved, done - |here|);
        assert |reduced| == Tree.Ceil8(|nodes|);
      }
    }
  }

  lemma {:induction false} LevelFirstSaved(nodes: seq<Tree.Node>, level: nat, saved: Tree.Reductions, done: nat)
    requires TreeFacts.LevelSaved(nodes, level, saved, done)
    ensures FirstSaved(TreeFacts.LevelSchedule(|nodes|, level, 0), saved, done)
  {
    var here := TreeFacts.LevelSchedule(|nodes|, level, 0);
    TreeFacts.LevelScheduleIds(|nodes|, level, 0);
    forall i | 0 <= i < done ensures here[i] in saved {
      assert here[i] == Tree.ReduceNode(level, 0 + i);
    }
  }

  // ---------------------------------------------------------------- what each write keeps

  lemma DraftKeepsSound(job: Job, id: nat, reply: DraftReply, v: Verdict)
    requires Sound(job) && DraftTaken(job, id, reply, v)
    ensures Sound(WithDraft(job, id, reply.claims))
    ensures StageDone(WithDraft(job, id, reply.claims), PartStage(id))
  {
    var part := PartById(job.parts, id).value;
    var after := WithDraft(job, id, reply.claims);
    var i :| 0 <= i < |job.parts| && job.parts[i] == part;
    assert PartIds(job)[i] == id;
    assert id in Tree.Elements(PartIds(job));
    assert PartIds(after) == PartIds(job);
    if id !in job.drafts && AllDrafted(after) {
      TreeFacts.EmptyAbove(JobLeaves(after), 0, after.reductions);
    }
  }

  lemma ReductionKeepsSound(job: Job, node: Tree.NodeId, inputs: seq<Tree.Node>, reply: Tree.Reply, v: Verdict)
    requires Sound(job) && ReductionTaken(job, node, inputs, reply, v)
    requires AllDrafted(job) && Tree.Next(PartIds(job), DraftTexts(job.drafts), job.reductions) == Tree.Missing(node, inputs)
    ensures Sound(WithReduction(job, node, inputs, reply.claims))
    ensures StageDone(WithReduction(job, node, inputs, reply.claims), ReduceStage(node))
  {
    var leaves := JobLeaves(job);
    var done: nat :| TreeFacts.Progress(leaves, 0, job.reductions, done);
    TreeFacts.SavingAdvances(leaves, 0, job.reductions, done, reply.claims);
    var after := WithReduction(job, node, inputs, reply.claims);
    assert PartIds(after) == PartIds(job);
    assert JobLeaves(after) == leaves;
  }

  /** A later job has everything an earlier one had, under the same plan. */
  ghost predicate Extends(job: Job, after: Job) {
    && after.parts == job.parts
    && (forall p :: p in job.drafts ==> p in after.drafts && after.drafts[p] == job.drafts[p])
    && (forall n :: n in job.reductions ==> n in after.reductions && after.reductions[n] == job.reductions[n])
    && (job.record.Some? ==> after.record.Some?)
  }

  lemma DoneStaysDone(job: Job, after: Job, stage: Stage)
    requires Extends(job, after) && StageDone(job, stage)
    ensures StageDone(after, stage)
  {
  }

  /** The next stage stays the next stage for as long as it is not done. */
  lemma NextStaysNext(job: Job, after: Job)
    requires Sound(job) && Sound(after) && Extends(job, after)
    requires job.record.None? && NextTask(job).Ok? && NextTask(job).value.Task?
    requires !StageDone(after, NextTask(job).value.stage)
    ensures NextTask(after).Ok? && NextTask(after).value.Task? && NextTask(after).value.stage == NextTask(job).value.stage
  {
    var k := NextIsFirstNotDone(job);
    var m := NextIsFirstNotDone(after);
  }

  /** A synthesis over groups is asked for once every part has its draft, with what the walk hands over. */
  lemma GroupedTask(job: Job)
    requires job.drafts.Keys <= Tree.Elements(PartIds(job)) && NextTask(job).Ok? && NextTask(job).value.Task?
    requires NextTask(job).value.stage == Synthesis && NextTask(job).value.inputs.Some?
    ensures AllDrafted(job) && DraftTexts(job.drafts).Keys == Tree.Elements(PartIds(job))
    ensures Tree.Next(PartIds(job), DraftTexts(job.drafts), job.reductions) == Tree.Nodes(NextTask(job).value.inputs.value)
  {
    hide Tree.Next;
    AllDraftedIff(job);
  }

  lemma DraftedReference(job: Job, ref: Tree.Ref)
    requires TreeFacts.InRange(DraftTexts(job.drafts), ref)
    ensures ReferenceFound(job, ref)
  {
  }

  lemma FittingClaim(job: Job, claim: Tree.Claim, nodes: seq<Tree.Node>)
    requires Tree.ClaimAcceptable(claim, nodes)
    requires forall j :: 0 <= j < |claim.references| ==> TreeFacts.InRange(DraftTexts(job.drafts), claim.references[j])
    ensures SynthesisClaimFits(job, claim)
  {
    hide Accept, Tree.Allowed, ReferenceFound, DraftTexts, TreeFacts.InRange;
    forall j | 0 <= j < |claim.references| ensures ReferenceFound(job, claim.references[j]) {
      DraftedReference(job, claim.references[j]);
    }
  }

  /** References accepted over groups of the tree are found by the final check in the drafts. */
  lemma GroupedReferencesAreFound(job: Job, claims: seq<Tree.Claim>)
    requires Sound(job) && NextTask(job).Ok? && NextTask(job).value.Task?
    requires NextTask(job).value.stage == Synthesis && NextTask(job).value.inputs.Some?
    requires Tree.Acceptable(claims, NextTask(job).value.inputs.value)
    ensures SynthesisAcceptable(job, claims)
  {
    hide Tree.Next, Tree.ClaimAcceptable, SynthesisClaimFits, NextTask, DraftTexts, TreeFacts.Progress, TreeFacts.InRange;
    GroupedTask(job);
    var nodes := NextTask(job).value.inputs.value;
    TreeFacts.SynthesisIsGrounded(PartIds(job), DraftTexts(job.drafts), job.reductions, claims);
    forall i | 0 <= i < |claims| ensures SynthesisClaimFits(job, claims[i]) {
      FittingClaim(job, claims[i], nodes);
    }
  }

  /** A job of n parts needs n drafts, fewer than n reductions and one synthesis. */
  lemma CourseIsShort(parts: seq<Plan.Part>)
    requires parts != []
    ensures |Course(parts)| <= 2 * |parts|
    ensures DistinctParts(parts) ==> forall i, j :: 0 <= i < j < |Course(parts)| ==> Course(parts)[i] != Course(parts)[j]
  {
    TreeFacts.FewerReductionsThanParts(|parts|, 0);
    TreeFacts.ScheduleIds(|parts|, 0);
    var ids := TreeFacts.Schedule(|parts|, 0);
    var n := |parts|;
    if DistinctParts(parts) {
      forall i, j | 0 <= i < j < |Course(parts)| ensures Course(parts)[i] != Course(parts)[j] {
        if n <= i && j < n + |ids| {
          assert Course(parts)[i] == ReduceStage(ids[i - n]) && Course(parts)[j] == ReduceStage(ids[j - n]);
        }
      }
    }
  }
}
