/**
 How the work of one job goes forward in any run of the queue: a failed attempt waits out its
 back-off, a lease sends one call, what is left to do only shrinks, and a commit leads on to the
 next stage.
 */
module DispatchProgress {
  import opened Wrappers
  import opened SummaryJob
  import opened SummaryJobProperties
  import opened SummaryWorker
  import opened DispatchProtocol
  import Tree = ReductionTree

  // ---------------------------------------------------------------- waiting out a failure

  function BackOff(row: Execution): real {
    if row.attempts == 1 then 60.0 else 300.0
  }

  /** An attempt for the job that a worker begins at a clock of at least `due`. */
  predicate BeginsAt(a: Action, job: JobId, due: real) {
    a.Begin? && a.job == job && a.now >= due
  }

  lemma WaitingStep(s: System, a: Action, job: JobId)
    requires job in s.rows && s.rows[job].state.Retry?
    ensures job in Perform(s, a).rows
    ensures Perform(s, a).rows[job] == s.rows[job] || BeginsAt(a, job, s.rows[job].nextAttempt)
  {
    hide Apply;
  }

  /**
   After a failure that is to be retried, the row stays exactly as it is until a worker begins a
   step at a clock of at least 60 seconds after the failure, or 300 after a later one.
   */
  lemma {:induction false} RetryWaits(s: System, f: Action, actions: seq<Action>)
    requires f.Fail? && f.lease in s.attempts && s.attempts[f.lease].job in s.rows
    requires var job := s.attempts[f.lease].job; Perform(s, f).rows[job].state.Retry? && s.rows[job].state.Running?
    ensures var job, t := s.attempts[f.lease].job, Perform(s, f);
      var due := f.now + BackOff(s.rows[job]);
      && job in Run(t, actions).rows
      && (Run(t, actions).rows[job] == t.rows[job]
          || exists i :: 0 <= i < |actions| && BeginsAt(actions[i], job, due) && job in Run(t, actions[..i]).rows
                         && Run(t, actions[..i]).rows[job] == t.rows[job])
  {
    var job, t := s.attempts[f.lease].job, Perform(s, f);
    assert t.rows[job].nextAttempt == f.now + BackOff(s.rows[job]);
    hide Perform;
    WaitsFrom(t, job, actions);
  }

  lemma {:induction false} WaitsFrom(t: System, job: JobId, actions: seq<Action>)
    requires job in t.rows && t.rows[job].state.Retry?
    ensures job in Run(t, actions).rows
    ensures Run(t, actions).rows[job] == t.rows[job]
            || exists i :: 0 <= i < |actions| && BeginsAt(actions[i], job, t.rows[job].nextAttempt) && job in Run(t, actions[..i]).rows
                           && Run(t, actions[..i]).rows[job] == t.rows[job]
  {
    hide Perform;
    if actions != [] {
      var last := |actions| - 1;
      WaitsFrom(t, job, actions[..last]);
      var u := Run(t, actions[..last]);
      RowStays(u, actions[last], job);
      if u.rows[job] == t.rows[job] {
        WaitingStep(u, actions[last], job);
      } else {
        var i :| 0 <= i < last && BeginsAt(actions[..last][i], job, t.rows[job].nextAttempt) && job in Run(t, actions[..last][..i]).rows
                 && Run(t, actions[..last][..i]).rows[job] == t.rows[job];
        assert actions[..last][..i] == actions[..i];
        assert BeginsAt(actions[i], job, t.rows[job].nextAttempt);
      }
    }
  }

  lemma RowStays(s: System, a: Action, job: JobId)
    requires job in s.rows
    ensures job in Perform(s, a).rows
  {
    hide Apply, BeginStep;
  }

  // ---------------------------------------------------------------- one call for each lease

  lemma LeaseSpent(s: System, a: Action, lease: Lease)
    requires lease in s.attempts && s.attempts[lease].call != Unsent
    ensures lease in Perform(s, a).attempts && Perform(s, a).attempts[lease].call != Unsent
  {
    hide Apply, BeginStep;
  }

  lemma {:induction false} LeaseStaysSpent(s: System, actions: seq<Action>, lease: Lease)
    requires lease in s.attempts && s.attempts[lease].call != Unsent
    ensures lease in Run(s, actions).attempts && Run(s, actions).attempts[lease].call != Unsent
  {
    hide Perform;
    if actions != [] {
      LeaseStaysSpent(s, actions[..|actions| - 1], lease);
      LeaseSpent(Run(s, actions[..|actions| - 1]), actions[|actions| - 1], lease);
    }
  }

  /** A lease is sent once: whatever happens afterwards, sending it again changes nothing. */
  lemma {:induction false} SentOnce(s: System, actions: seq<Action>, lease: Lease)
    requires Perform(s, Send(lease)) != s
    ensures var t := Run(Perform(s, Send(lease)), actions); Perform(t, Send(lease)) == t
  {
    hide Run;
    LeaseStaysSpent(Perform(s, Send(lease)), actions, lease);
  }

  // ---------------------------------------------------------------- what is left to do

  /** The stages of a course that are not done. */
  function StagesLeft(job: SummaryJob.Job, course: seq<Stage>): nat {
    if course == [] then 0
    else StagesLeft(job, course[..|course| - 1]) + if StageDone(job, course[|course| - 1]) then 0 else 1
  }

  /** The attempts left for the stage that is next. */
  function TriesLeft(row: Execution, job: SummaryJob.Job): nat {
    if NextTask(job).Ok? && NextTask(job).value.Task? && row.step == Some(NextTask(job).value.stage)
    then if row.attempts < MAX_ATTEMPTS then MAX_ATTEMPTS - row.attempts else 0
    else MAX_ATTEMPTS
  }

  datatype Left = Left(stages: nat, tries: nat)

  function LeftOf(s: System, id: JobId): Left
    requires id in s.rows && id in s.jobs
  {
    Left(StagesLeft(s.jobs[id], Course(s.jobs[id].parts)), TriesLeft(s.rows[id], s.jobs[id]))
  }

  predicate Below(a: Left, b: Left) {
    a.stages < b.stages || (a.stages == b.stages && a.tries < b.tries)
  }

  lemma {:induction false} GrowthLeaves(job: SummaryJob.Job, after: SummaryJob.Job, course: seq<Stage>)
    requires Extends(job, after)
    ensures StagesLeft(after, course) <= StagesLeft(job, course)
    ensures StagesLeft(after, course) == StagesLeft(job, course) ==>
              forall i :: 0 <= i < |course| ==> (StageDone(after, course[i]) <==> StageDone(job, course[i]))
  {
    hide StageDone, Extends;
    if course != [] {
      var last := |course| - 1;
      GrowthLeaves(job, after, course[..last]);
      if StageDone(job, course[last]) { DoneStaysDone(job, after, course[last]); }
      if StagesLeft(after, course) == StagesLeft(job, course) {
        forall i | 0 <= i < |course| ensures StageDone(after, course[i]) <==> StageDone(job, course[i]) {
          if i < last { assert course[..last][i] == course[i]; }
        }
      }
    }
  }

  /** As long as no stage is newly done, the next task is for the same stage. */
  lemma {:induction false} SameNext(job: SummaryJob.Job, after: SummaryJob.Job)
    requires Sound(job) && Sound(after) && Extends(job, after)
    requires StagesLeft(after, Course(job.parts)) == StagesLeft(job, Course(job.parts))
    ensures job.record.Some? <==> after.record.Some?
    ensures job.record.None? ==> NextTask(job).Ok? && NextTask(job).value.Task? && NextTask(after).Ok? && NextTask(after).value.Task?
                                 && NextTask(after).value.stage == NextTask(job).value.stage
  {
    hide Sound, NextTask, Course;
    var course := Course(job.parts);
    GrowthLeaves(job, after, course);
    if job.record.None? {
      var k := NextIsFirstNotDone(job);
      assert !StageDone(after, course[k]);
      NextStaysNext(job, after);
    }
  }

  predicate StartsAttempt(s: System, a: Action, id: JobId) {
    a.Begin? && a.job == id && a.lease !in s.attempts && a.lease in Perform(s, a).attempts
  }

  /** An attempt that starts moves the row to the next stage, and leaves the jobs alone. */
  lemma StartMoves(s: System, a: Action, id: JobId)
    requires id in s.rows && id in s.jobs && StartsAttempt(s, a, id)
    ensures Perform(s, a).jobs == s.jobs && id in Perform(s, a).rows && (s.rows[id].state.Ready? || s.rows[id].state.Retry?)
    ensures NextTask(s.jobs[id]).Ok? && NextTask(s.jobs[id]).value.Task?
    ensures var stage, after := NextTask(s.jobs[id]).value.stage, Perform(s, a).rows[id];
      after.step == Some(stage) && after.attempts == AttemptNumber(s.rows[id], stage)
  {
    hide NextTask;
  }

  /** What the actions do to the row of a job, as far as its attempts are concerned. */
  lemma RowMoves(s: System, a: Action, id: JobId)
    requires id in s.rows && id in s.jobs
    ensures id in Perform(s, a).rows && id in Perform(s, a).jobs
    ensures var row, after := s.rows[id], Perform(s, a).rows[id];
      || (after.step == row.step && after.attempts == row.attempts)
      || (a.Begin? && a.job == id && a.lease !in s.attempts && after.lease == Some(a.lease) && a.lease in Perform(s, a).attempts
          && Perform(s, a).jobs == s.jobs && (row.state.Ready? || row.state.Retry?)
          && NextTask(s.jobs[id]).Ok? && NextTask(s.jobs[id]).value.Task?
          && after.step == Some(NextTask(s.jobs[id]).value.stage) && after.attempts == AttemptNumber(row, NextTask(s.jobs[id]).value.stage))
      || (a.Commit? && a.lease in s.attempts && s.attempts[a.lease].job == id && row.lease == Some(a.lease) && row.state.Running?
          && after.step == row.step && after.attempts == 0
          && Apply(s.jobs[id], s.attempts[a.lease].stage, s.attempts[a.lease].inputs, a.reply, a.v) == Some(Perform(s, a).jobs[id]))
  {
    hide Apply, NextTask;
  }

  lemma ApplyDone(job: SummaryJob.Job, stage: Stage, inputs: Option<seq<Tree.Node>>, reply: ModelReply, v: Verdict)
    requires Apply(job, stage, inputs, reply, v).Some?
    ensures StageDone(Apply(job, stage, inputs, reply, v).value, stage)
  {
    hide DraftAcceptable, SynthesisAcceptable, Evidence, Tree.Acceptable, AllDrafted;
  }

  /** The lease of a running row was given for the row's own stage, and an open one with tries left is below the limit. */
  lemma RowKnows(s: System, id: JobId)
    requires Inv(s) && id in s.rows
    ensures id in s.jobs && Sound(s.jobs[id])
    ensures var row, job := s.rows[id], s.jobs[id];
      && (row.state.Running? && row.lease.Some? ==> row.lease.value in s.attempts && row.step == Some(s.attempts[row.lease.value].stage))
      && ((row.state.Ready? || row.state.Retry?) && row.step.Some? && !StageDone(job, row.step.value) ==> row.attempts < MAX_ATTEMPTS)
  {
    hide Inv, Sound, StageDone, NextTask, CountOk;
    RowOf(s, id);
  }

  /** With the same stages left, the tries move as the row does. */
  lemma TriesMove(s: System, a: Action, id: JobId)
    requires Inv(s) && Inv(Perform(s, a)) && id in s.rows && id in s.jobs && id in Perform(s, a).rows && id in Perform(s, a).jobs
    requires Extends(s.jobs[id], Perform(s, a).jobs[id])
    requires StagesLeft(Perform(s, a).jobs[id], Course(s.jobs[id].parts)) == StagesLeft(s.jobs[id], Course(s.jobs[id].parts))
    ensures TriesLeft(Perform(s, a).rows[id], Perform(s, a).jobs[id]) <= TriesLeft(s.rows[id], s.jobs[id])
    ensures StartsAttempt(s, a, id) ==> TriesLeft(Perform(s, a).rows[id], Perform(s, a).jobs[id]) < TriesLeft(s.rows[id], s.jobs[id])
  {
    hide Perform, Inv, Sound, StageDone, Extends, Course, StagesLeft, Apply;
    var row, job, after, grown := s.rows[id], s.jobs[id], Perform(s, a).rows[id], Perform(s, a).jobs[id];
    RowKnows(s, id);
    RowKnows(Perform(s, a), id);
    SameNext(job, grown);
    RowMoves(s, a, id);
    if StartsAttempt(s, a, id) { StartMoves(s, a, id); }
    if job.record.Some? {
      FinishedAlike(job, grown);
    } else {
      var k := NextIsFirstNotDone(job);
      var m := NextIsFirstNotDone(grown);
      hide NextTask;
      if after.step == row.step && after.attempts != row.attempts && a.Commit? && a.lease in s.attempts {
        ApplyDone(job, s.attempts[a.lease].stage, s.attempts[a.lease].inputs, a.reply, a.v);
      }
    }
  }

  lemma FinishedAlike(job: SummaryJob.Job, after: SummaryJob.Job)
    requires job.record.Some? && after.record.Some?
    ensures NextTask(job) == Ok(Finished) && NextTask(after) == Ok(Finished)
  {
  }

  /** What is left of a job never grows, and an attempt that starts takes from it. */
  lemma LeftShrinks(s: System, a: Action, id: JobId)
    requires Inv(s) && id in s.rows
    ensures id in s.jobs && id in Perform(s, a).rows && id in Perform(s, a).jobs
    ensures LeftOf(Perform(s, a), id) == LeftOf(s, id) || Below(LeftOf(Perform(s, a), id), LeftOf(s, id))
    ensures StartsAttempt(s, a, id) ==> Below(LeftOf(Perform(s, a), id), LeftOf(s, id))
  {
    hide Perform, Inv, Extends, Course, StagesLeft, TriesLeft;
    RowKnows(s, id);
    RowStays(s, a, id);
    StepExtends(s, a, id);
    PerformKeeps(s, a);
    var job, grown := s.jobs[id], Perform(s, a).jobs[id];
    assert grown.parts == job.parts by { SameParts(job, grown); }
    GrowthLeaves(job, grown, Course(job.parts));
    if StagesLeft(grown, Course(job.parts)) == StagesLeft(job, Course(job.parts)) {
      TriesMove(s, a, id);
    } else if StartsAttempt(s, a, id) {
      StartMoves(s, a, id);
    }
  }

  lemma SameParts(job: SummaryJob.Job, after: SummaryJob.Job)
    requires Extends(job, after)
    ensures after.parts == job.parts
  {
  }

  /** Over any run what is left of a job does not grow, so that work once done is never asked for again. */
  lemma {:induction false} LeftOverRuns(s: System, actions: seq<Action>, id: JobId)
    requires Inv(s) && id in s.rows
    ensures Inv(Run(s, actions)) && id in s.jobs && id in Run(s, actions).rows && id in Run(s, actions).jobs
    ensures LeftOf(Run(s, actions), id) == LeftOf(s, id) || Below(LeftOf(Run(s, actions), id), LeftOf(s, id))
  {
    hide Perform, Inv, LeftOf;
    RowKnows(s, id);
    RunKeeps(s, actions);
    if actions != [] {
      var last := |actions| - 1;
      LeftOverRuns(s, actions[..last], id);
      LeftShrinks(Run(s, actions[..last]), actions[last], id);
    }
  }

  // ---------------------------------------------------------------- what a commit leaves behind

  /** A row that is complete has its record, and one that is not waiting out a failure may begin at any time. */
  ghost predicate RowsFit(s: System) {
    forall id :: id in s.rows ==>
      && id in s.jobs
      && (s.rows[id].state.Complete? ==> s.jobs[id].record.Some?)
      && (s.rows[id].state.Ready? || s.rows[id].state.Running? ==> s.rows[id].nextAttempt == 0.0)
  }

  lemma NewRecord(job: SummaryJob.Job, stage: Stage, inputs: Option<seq<Tree.Node>>, reply: ModelReply, v: Verdict)
    requires Apply(job, stage, inputs, reply, v).Some? && stage.Synthesis?
    ensures Apply(job, stage, inputs, reply, v).value.record.Some?
  {
    hide SynthesisAcceptable, Evidence, AllDrafted, Tree.Acceptable;
  }

  lemma BegunFits(row: Execution, job: SummaryJob.Job, model: string, g: Grants, now: real, lease: Lease, current: bool, tooLarge: bool)
    requires row.state.Complete? ==> job.record.Some?
    requires row.state.Ready? || row.state.Running? ==> row.nextAttempt == 0.0
    ensures var begun := BeginStep(row, job, model, g, now, lease, current, tooLarge);
      !begun.Refused? ==>
        && (begun.row.state.Complete? ==> job.record.Some?)
        && (begun.row.state.Ready? || begun.row.state.Running? ==> begun.row.nextAttempt == 0.0)
  {
    hide FirstUndrafted, Tree.Next, PartIds, DraftTexts;
  }

  lemma StepFits(s: System, a: Action)
    requires RowsFit(s)
    ensures RowsFit(Perform(s, a))
  {
    hide RowsFit, Perform;
    match a
    case Begin(_, _, _, _, _, _, _) => BeginFits(s, a);
    case Commit(_, _, _, _, _) => CommitFits(s, a);
    case Fail(_, _, _) => FailFits(s, a);
    case _ => OtherFits(s, a);
  }

  lemma BeginFits(s: System, a: Action)
    requires RowsFit(s) && a.Begin?
    ensures RowsFit(Perform(s, a))
  {
    hide BeginStep;
    if a.job in s.rows {
      BegunFits(s.rows[a.job], s.jobs[a.job], a.model, a.g, a.now, a.lease, a.current, a.tooLarge);
    }
  }

  lemma FailFits(s: System, a: Action)
    requires RowsFit(s) && a.Fail?
    ensures RowsFit(Perform(s, a))
  {
  }

  lemma OtherFits(s: System, a: Action)
    requires RowsFit(s) && !a.Begin? && !a.Commit? && !a.Fail?
    ensures RowsFit(Perform(s, a))
  {
    hide DraftTaken, SynthesisAcceptable, Evidence, AllDrafted, Numbered;
  }

  lemma CommitFits(s: System, a: Action)
    requires RowsFit(s) && a.Commit?
    ensures RowsFit(Perform(s, a))
  {
    hide Apply, BeginStep;
    if a.lease in s.attempts && Perform(s, a) != s {
      var at := s.attempts[a.lease];
      ApplyExtends(s.jobs[at.job], at.stage, at.inputs, a.reply, a.v);
      if at.stage.Synthesis? { NewRecord(s.jobs[at.job], at.stage, at.inputs, a.reply, a.v); }
    }
  }

  lemma {:induction false} RunFits(actions: seq<Action>)
    ensures RowsFit(Run(Start, actions))
  {
    hide Perform;
    if actions != [] {
      RunFits(actions[..|actions| - 1]);
      StepFits(Run(Start, actions[..|actions| - 1]), actions[|actions| - 1]);
    }
  }

  /** In every run, a row that is complete belongs to a job with its record: nothing is given up half-way as done. */
  lemma {:induction false} CompleteHasRecord(actions: seq<Action>, id: JobId)
    requires id in Run(Start, actions).rows && Run(Start, actions).rows[id].state.Complete?
    ensures id in Run(Start, actions).jobs && Run(Start, actions).jobs[id].record.Some?
  {
    hide Run;
    RunFits(actions);
  }

  /** A begin that nothing stands against: granted, for the row's model, on a current source and within the size. */
  predicate Unhindered(s: System, b: Action, id: JobId)
    requires id in s.rows
  {
    && b.Begin? && b.job == id && b.model == s.rows[id].model && b.g.before && b.g.inside
    && b.current && !b.tooLarge && b.lease !in s.attempts && b.now >= 0.0
  }

  /**
   In every run, a commit that leaves its job without a record leaves the row ready, without a lease,
   and the very next begin, at any clock, starts the next stage.
   */
  lemma {:induction false} CommitContinues(actions: seq<Action>, c: Action, b: Action)
    requires c.Commit? && c.lease in Run(Start, actions).attempts
    requires Perform(Run(Start, actions), c) != Run(Start, actions)
    ensures var s, t := Run(Start, actions), Perform(Run(Start, actions), c);
      var id := s.attempts[c.lease].job;
      && id in t.rows && id in t.jobs
      && (t.jobs[id].record.None? ==>
            && t.rows[id].state.Ready? && t.rows[id].lease.None?
            && NextTask(t.jobs[id]).Ok? && NextTask(t.jobs[id]).value.Task?
            && (Unhindered(t, b, id) ==>
                  && StartsAttempt(t, b, id) && Perform(t, b).rows[id].state.Running?
                  && Perform(t, b).attempts[b.lease].stage == NextTask(t.jobs[id]).value.stage))
  {
    hide Run, Apply, NextTask, Inv;
    var s, t := Run(Start, actions), Perform(Run(Start, actions), c);
    RunFits(actions);
    StepFits(s, c);
    RunsKeepInv(actions);
    PerformKeeps(s, c);
    var at := s.attempts[c.lease];
    if t.jobs[at.job].record.None? {
      if at.stage.Synthesis? { NewRecord(s.jobs[at.job], at.stage, at.inputs, c.reply, c.v); }
      RowKnows(t, at.job);
      var k := NextIsFirstNotDone(t.jobs[at.job]);
    }
  }

  /** A failure recorded under the lease that still holds: retried if and only if the call is known not to have gone out and tries are left. */
  lemma FailureSettles(s: System, f: Action, id: JobId)
    requires f.Fail? && f.lease in s.attempts && s.attempts[f.lease].job == id && id in s.rows
    requires s.rows[id].state.Running? && s.rows[id].lease == Some(f.lease)
    ensures var row, at := Perform(s, f).rows[id], s.attempts[f.lease];
      && (row.state.Retry? <==> at.call == NeverSent && at.number < 3) && (row.state.Blocked? <==> !row.state.Retry?)
      && row.error == Some(f.error) && row.lease.None? && row.step == s.rows[id].step && row.attempts == s.rows[id].attempts
  {
  }
}
