/**
 All runs of the summary queue: any number of workers, any clock, expired leases,
 revoked grants, crashes (a worker that never acts again) and an operator who submits
 drafts and syntheses by hand. A model call is counted by the lease it was made under.
 */
module DispatchProtocol {
  import opened Wrappers
  import opened SummaryJob
  import opened SummaryJobProperties
  import opened SummaryWorker
  import Plan = SummaryPlan
  import Tree = ReductionTree

  datatype Call = Unsent | InFlight | NeverSent | Answered
  datatype Attempt = Attempt(job: JobId, model: string, stage: Stage, inputs: Option<seq<Tree.Node>>, number: nat, call: Call)
  datatype System = System(jobs: map<JobId, SummaryJob.Job>, rows: map<JobId, Execution>, attempts: map<Lease, Attempt>)

  datatype Action =
    | Prepare(job: JobId, parts: seq<Plan.Part>)
    | Enqueue(job: JobId, model: string, g: Grants, current: bool)
    | Begin(job: JobId, model: string, g: Grants, now: real, lease: Lease, current: bool, tooLarge: bool)
    | Send(lease: Lease)
    | Return(lease: Lease, dispatched: bool)
    | Commit(lease: Lease, reply: ModelReply, g: Grants, now: real, v: Verdict)
    | Fail(lease: Lease, error: Code, now: real)
    | OperatorDraft(job: JobId, part: nat, draft: DraftReply, v: Verdict)
    | OperatorFinalize(job: JobId, synthesis: Tree.Reply, v: Verdict)

  const Start := System(map[], map[], map[])

  /** Parts and units of a plan are numbered from 1 on. */
  predicate Numbered(parts: seq<Plan.Part>) {
    && parts != [] && (forall i :: 0 <= i < |parts| ==> parts[i].id == i + 1)
    && Plan.BoundedUnits(Plan.Flatten(parts), 0)
  }

  function DoPrepare(s: System, job: JobId, parts: seq<Plan.Part>): System {
    if job in s.jobs || !Numbered(parts) then s else s.(jobs := s.jobs[job := SummaryJob.Job(parts, map[], map[], None)])
  }

  function DoEnqueue(s: System, job: JobId, model: string, g: Grants, current: bool): System {
    if g.before && g.inside && job in s.jobs && current && job !in s.rows then s.(rows := s.rows[job := Queued(model)]) else s
  }

  function DoBegin(s: System, job: JobId, model: string, lease: Lease, begun: Begun): System {
    match begun
    case Refused(_) => s
    case Settled(row) => s.(rows := s.rows[job := row])
    case Started(row, stage, inputs) =>
      System(s.jobs, s.rows[job := row], WithAttempt(s.attempts, lease, job, model, stage, inputs, row.attempts))
  }

  function DoCommit(s: System, lease: Lease, reply: ModelReply, g: Grants, now: real, v: Verdict): System {
    if lease in s.attempts && s.attempts[lease].call == Answered && s.attempts[lease].job in s.rows && s.attempts[lease].job in s.jobs then
      var a := s.attempts[lease];
      if Committable(s.rows[a.job], s.jobs[a.job], a.model, a.stage, a.inputs, lease, reply, g, now, v)
      then System(s.jobs[a.job := Apply(s.jobs[a.job], a.stage, a.inputs, reply, v).value],
                  s.rows[a.job := Committed(s.rows[a.job], a.stage)], s.attempts)
      else s
    else s
  }

  function DoFail(s: System, lease: Lease, error: Code, now: real): System {
    if lease in s.attempts && s.attempts[lease].job in s.rows then
      var a := s.attempts[lease];
      s.(rows := s.rows[a.job := Failed(s.rows[a.job], lease, error, a.call == NeverSent && a.number < MAX_ATTEMPTS, now)])
    else s
  }

  function WithJob(s: System, id: JobId, job: SummaryJob.Job): System {
    s.(jobs := s.jobs[id := job])
  }

  /** One action; an action that does not apply leaves everything as it is. */
  function Perform(s: System, a: Action): System {
    match a
    case Prepare(job, parts) => DoPrepare(s, job, parts)
    case Enqueue(job, model, g, current) => DoEnqueue(s, job, model, g, current)
    case Begin(job, model, g, now, lease, current, tooLarge) =>
      if job !in s.rows || job !in s.jobs || lease in s.attempts then s
      else DoBegin(s, job, model, lease, BeginStep(s.rows[job], s.jobs[job], model, g, now, lease, current, tooLarge))
    case Send(lease) =>
      if lease in s.attempts && s.attempts[lease].call == Unsent then WithCall(s, lease, InFlight) else s
    case Return(lease, dispatched) =>
      if lease in s.attempts && s.attempts[lease].call == InFlight
      then WithCall(s, lease, if dispatched then Answered else NeverSent) else s
    case Commit(lease, reply, g, now, v) => DoCommit(s, lease, reply, g, now, v)
    case Fail(lease, error, now) => DoFail(s, lease, error, now)
    case OperatorDraft(job, part, draft, v) =>
      if job in s.jobs && DraftTaken(s.jobs[job], part, draft, v) then WithJob(s, job, WithDraft(s.jobs[job], part, draft.claims)) else s
    case OperatorFinalize(job, synthesis, v) =>
      if job in s.jobs && SynthesisTaken(s.jobs[job], synthesis, v) then WithJob(s, job, s.jobs[job].(record := v.proposal)) else s
  }

  function WithCall(s: System, lease: Lease, call: Call): System
    requires lease in s.attempts
  {
    s.(attempts := s.attempts[lease := s.attempts[lease].(call := call)])
  }

  function Run(s: System, actions: seq<Action>): System {
    if actions == [] then s else Perform(Run(s, actions[..|actions| - 1]), actions[|actions| - 1])
  }

  // ---------------------------------------------------------------- the invariant

  /** The leases ever given out for a stage of a job. */
  function LeasesFor(attempts: map<Lease, Attempt>, job: JobId, stage: Stage): set<Lease> {
    set l | l in attempts && attempts[l].job == job && attempts[l].stage == stage
  }

  /** Calls that went out, or may have: everything except a call proved never sent, and one not made yet. */
  function Calls(attempts: map<Lease, Attempt>, job: JobId, stage: Stage): set<Lease> {
    set l | l in attempts && attempts[l].job == job && attempts[l].stage == stage && !attempts[l].call.Unsent?
  }

  function UncertainCalls(attempts: map<Lease, Attempt>, job: JobId, stage: Stage): set<Lease> {
    set l | l in attempts && attempts[l].job == job && attempts[l].stage == stage
            && (attempts[l].call.InFlight? || attempts[l].call.Answered?)
  }

  predicate Open(row: Execution) {
    !row.state.Blocked? && !row.state.Complete?
  }

  ghost predicate LeaseOk(attempts: map<Lease, Attempt>, row: Execution, job: SummaryJob.Job, id: JobId) {
    && (row.state.Running? <==> row.lease.Some?)
    && (row.state.Running? ==>
          && row.lease.value in attempts
          && var a := attempts[row.lease.value];
             && a.job == id && row.step == Some(a.stage) && a.number == row.attempts && 1 <= row.attempts <= MAX_ATTEMPTS
             && (a.stage.ReduceStage? ==>
                   a.inputs.Some? && AllDrafted(job)
                   && Tree.Next(PartIds(job), DraftTexts(job.drafts), job.reductions) == Tree.Missing(a.stage.node, a.inputs.value)))
  }

  ghost predicate StepOk(row: Execution, job: SummaryJob.Job) {
    row.step.Some? && !StageDone(job, row.step.value) ==>
      && (row.state.Ready? || row.state.Retry? ==> row.attempts < MAX_ATTEMPTS)
      && NextTask(job).Ok? && NextTask(job).value.Task? && NextTask(job).value.stage == row.step.value
  }

  /** For an open row, a stage that is not done has only calls proved never sent, besides the one under the current lease. */
  ghost predicate CountOk(attempts: map<Lease, Attempt>, row: Execution, job: SummaryJob.Job, id: JobId, stage: Stage) {
    Open(row) && !StageDone(job, stage) ==>
      && |LeasesFor(attempts, id, stage)| == (if row.step == Some(stage) then row.attempts else 0)
      && forall l :: l in LeasesFor(attempts, id, stage) && row.lease != Some(l) ==> attempts[l].call == NeverSent
  }

  ghost predicate RowOk(attempts: map<Lease, Attempt>, row: Execution, job: SummaryJob.Job, id: JobId) {
    && LeaseOk(attempts, row, job, id)
    && StepOk(row, job)
    && forall stage :: CountOk(attempts, row, job, id, stage)
  }

  ghost predicate StageOk(attempts: map<Lease, Attempt>, id: JobId, stage: Stage) {
    && |LeasesFor(attempts, id, stage)| <= MAX_ATTEMPTS
    && forall l, m ::
         l in LeasesFor(attempts, id, stage) && m in LeasesFor(attempts, id, stage) && attempts[l].call != NeverSent && attempts[m].call != NeverSent
         ==> l == m
  }

  ghost predicate JobsOk(jobs: map<JobId, SummaryJob.Job>) {
    forall id :: id in jobs ==> Sound(jobs[id])
  }

  ghost predicate RowsOk(jobs: map<JobId, SummaryJob.Job>, rows: map<JobId, Execution>, attempts: map<Lease, Attempt>) {
    forall id :: id in rows ==> id in jobs && RowOk(attempts, rows[id], jobs[id], id)
  }

  ghost predicate StagesOk(attempts: map<Lease, Attempt>) {
    forall id, stage :: StageOk(attempts, id, stage)
  }

  ghost predicate Owned(rows: map<JobId, Execution>, attempts: map<Lease, Attempt>) {
    forall l :: l in attempts ==> attempts[l].job in rows
  }

  ghost predicate Inv(s: System) {
    JobsOk(s.jobs) && RowsOk(s.jobs, s.rows, s.attempts) && StagesOk(s.attempts) && Owned(s.rows, s.attempts)
  }

  // ---------------------------------------------------------------- frames

  /** The attempts of one job are the same in both histories. */
  ghost predicate SameFor(before: map<Lease, Attempt>, after: map<Lease, Attempt>, id: JobId) {
    && (forall l :: l in before && before[l].job == id ==> l in after && after[l] == before[l])
    && (forall l :: l in after && after[l].job == id ==> l in before && after[l] == before[l])
  }

  lemma SameLeases(before: map<Lease, Attempt>, after: map<Lease, Attempt>, id: JobId, stage: Stage)
    requires SameFor(before, after, id)
    ensures LeasesFor(after, id, stage) == LeasesFor(before, id, stage)
  {
  }

  lemma OtherRowOk(before: map<Lease, Attempt>, after: map<Lease, Attempt>, row: Execution, job: SummaryJob.Job,
                   id: JobId)
    requires SameFor(before, after, id) && RowOk(before, row, job, id)
    ensures RowOk(after, row, job, id)
  {
    forall stage ensures CountOk(after, row, job, id, stage) {
      SameLeases(before, after, id, stage);
      assert CountOk(before, row, job, id, stage);
    }
  }

  /** A job that only grew, with the same row. */
  lemma GrownJobOk(attempts: map<Lease, Attempt>, row: Execution, job: SummaryJob.Job, after: SummaryJob.Job, id: JobId)
    requires RowOk(attempts, row, job, id) && Sound(job) && Sound(after) && Extends(job, after)
    requires AllDrafted(job) ==> after.drafts == job.drafts
    requires after.reductions == job.reductions
    ensures RowOk(attempts, row, after, id)
  {
    if row.step.Some? && !StageDone(after, row.step.value) {
      if StageDone(job, row.step.value) {
        DoneStaysDone(job, after, row.step.value);
      }
      NextStaysNext(job, after);
    }
    assert PartIds(after) == PartIds(job);
    forall stage ensures CountOk(attempts, row, after, id, stage) {
      assert CountOk(attempts, row, job, id, stage);
      if StageDone(job, stage) {
        DoneStaysDone(job, after, stage);
      }
    }
  }

  // ---------------------------------------------------------------- each action keeps the invariant

  lemma PrepareKeeps(s: System, id: JobId, parts: seq<Plan.Part>)
    requires Inv(s)
    ensures Inv(DoPrepare(s, id, parts))
  {
    if id !in s.jobs && Numbered(parts) {
      var job := SummaryJob.Job(parts, map[], map[], None);
      assert PartIds(job)[0] == parts[0].id;
      assert parts[0].id in Tree.Elements(PartIds(job));
      assert Sound(job);
    }
  }

  lemma RowReplaced(jobs: map<JobId, SummaryJob.Job>, rows: map<JobId, Execution>, attempts: map<Lease, Attempt>,
                    id: JobId, row: Execution)
    requires RowsOk(jobs, rows, attempts) && id in jobs && RowOk(attempts, row, jobs[id], id)
    ensures RowsOk(jobs, rows[id := row], attempts)
  {
  }

  lemma RowAndJobReplaced(jobs: map<JobId, SummaryJob.Job>, rows: map<JobId, Execution>, attempts: map<Lease, Attempt>,
                          id: JobId, row: Execution, job: SummaryJob.Job)
    requires RowsOk(jobs, rows, attempts) && id in jobs && RowOk(attempts, row, job, id)
    ensures RowsOk(jobs[id := job], rows[id := row], attempts)
  {
  }

  lemma EnqueueKeeps(s: System, id: JobId, model: string, g: Grants, current: bool)
    requires Inv(s)
    ensures Inv(DoEnqueue(s, id, model, g, current))
  {
    if DoEnqueue(s, id, model, g, current) != s {
      var row := Queued(model);
      forall stage ensures CountOk(s.attempts, row, s.jobs[id], id, stage) {
        assert LeasesFor(s.attempts, id, stage) == {};
      }
      RowReplaced(s.jobs, s.rows, s.attempts, id, row);
    }
  }

  function WithAttempt(attempts: map<Lease, Attempt>, lease: Lease, id: JobId, model: string, stage: Stage,
                       inputs: Option<seq<Tree.Node>>, number: nat): map<Lease, Attempt> {
    attempts[lease := Attempt(id, model, stage, inputs, number, Unsent)]
  }

  /** A fresh lease is one more for its own stage, and none for any other. */
  lemma FreshLease(attempts: map<Lease, Attempt>, lease: Lease, id: JobId, model: string, stage: Stage,
                   inputs: Option<seq<Tree.Node>>, number: nat, st: Stage)
    requires lease !in attempts
    ensures var all := WithAttempt(attempts, lease, id, model, stage, inputs, number);
            LeasesFor(all, id, st) == if st == stage then LeasesFor(attempts, id, st) + {lease} else LeasesFor(attempts, id, st)
  {
  }

  /** The stage the lease is for: its earlier attempts, all proved never sent, and this one. */
  lemma StartCountsOwn(attempts: map<Lease, Attempt>, row: Execution, job: SummaryJob.Job, id: JobId, model: string,
                       after: Execution, lease: Lease, stage: Stage, inputs: Option<seq<Tree.Node>>)
    requires CountOk(attempts, row, job, id, stage) && Open(row) && row.lease.None? && lease !in attempts && !StageDone(job, stage)
    requires row.step == Some(stage) ==> row.attempts < MAX_ATTEMPTS
    requires after.step == Some(stage) && after.lease == Some(lease) && after.attempts == AttemptNumber(row, stage)
    ensures var all := WithAttempt(attempts, lease, id, model, stage, inputs, after.attempts);
            CountOk(all, after, job, id, stage) && StageOk(all, id, stage)
  {
    hide StageDone;
    var all := WithAttempt(attempts, lease, id, model, stage, inputs, after.attempts);
    FreshLease(attempts, lease, id, model, stage, inputs, after.attempts, stage);
    assert |LeasesFor(all, id, stage)| == |LeasesFor(attempts, id, stage)| + 1 == after.attempts <= MAX_ATTEMPTS;
  }

  /** Any other stage: nothing changes. */
  lemma StartCountsOther(attempts: map<Lease, Attempt>, row: Execution, job: SummaryJob.Job, id: JobId, model: string,
                         after: Execution, lease: Lease, stage: Stage, inputs: Option<seq<Tree.Node>>, st: Stage)
    requires CountOk(attempts, row, job, id, st) && StageOk(attempts, id, st) && Open(row) && row.lease.None? && lease !in attempts
    requires st != stage && after.step == Some(stage) && after.lease == Some(lease)
    requires row.step.Some? && !StageDone(job, row.step.value) ==> row.step == Some(stage)
    ensures var all := WithAttempt(attempts, lease, id, model, stage, inputs, after.attempts);
            CountOk(all, after, job, id, st) && StageOk(all, id, st)
  {
    hide StageDone;
    FreshLease(attempts, lease, id, model, stage, inputs, after.attempts, st);
  }

  lemma StartedRowOk(attempts: map<Lease, Attempt>, row: Execution, job: SummaryJob.Job, id: JobId, model: string,
                     after: Execution, lease: Lease, stage: Stage, inputs: Option<seq<Tree.Node>>)
    requires RowOk(attempts, row, job, id) && Sound(job) && lease !in attempts
    requires row.state.Ready? || row.state.Retry?
    requires NextTask(job) == Ok(Task(stage, inputs))
    requires after.state.Running? && after.step == Some(stage) && after.lease == Some(lease) && after.attempts == AttemptNumber(row, stage)
    requires StagesOk(attempts)
    ensures var all := WithAttempt(attempts, lease, id, model, stage, inputs, after.attempts);
            RowOk(all, after, job, id) && forall st :: StageOk(all, id, st)
  {
    var k := NextIsFirstNotDone(job);
    AllDraftedIff(job);
    var all := WithAttempt(attempts, lease, id, model, stage, inputs, after.attempts);
    forall st ensures CountOk(all, after, job, id, st) && StageOk(all, id, st) {
      assert CountOk(attempts, row, job, id, st);
      assert StageOk(attempts, id, st);
      if st == stage {
        StartCountsOwn(attempts, row, job, id, model, after, lease, stage, inputs);
      } else {
        StartCountsOther(attempts, row, job, id, model, after, lease, stage, inputs, st);
      }
    }
  }

  lemma SettledRowOk(attempts: map<Lease, Attempt>, row: Execution, job: SummaryJob.Job, id: JobId,
                     model: string, g: Grants, now: real, lease: Lease, current: bool, tooLarge: bool)
    requires RowOk(attempts, row, job, id)
    requires BeginStep(row, job, model, g, now, lease, current, tooLarge).Settled?
    ensures RowOk(attempts, BeginStep(row, job, model, g, now, lease, current, tooLarge).row, job, id)
  {
  }

  lemma StartedRows(jobs: map<JobId, SummaryJob.Job>, rows: map<JobId, Execution>, attempts: map<Lease, Attempt>,
                    all: map<Lease, Attempt>,
                    id: JobId, after: Execution)
    requires RowsOk(jobs, rows, attempts) && id in jobs
    requires forall other :: other != id ==> SameFor(attempts, all, other)
    requires RowOk(all, after, jobs[id], id)
    ensures RowsOk(jobs, rows[id := after], all)
  {
    forall other | other in rows && other != id ensures other in jobs && RowOk(all, rows[other], jobs[other], other) {
      OtherRowOk(attempts, all, rows[other], jobs[other], other);
    }
  }

  lemma StartedStages(attempts: map<Lease, Attempt>, all: map<Lease, Attempt>, id: JobId)
    requires StagesOk(attempts)
    requires forall other :: other != id ==> SameFor(attempts, all, other)
    requires forall st :: StageOk(all, id, st)
    ensures StagesOk(all)
  {
    forall other, st ensures StageOk(all, other, st) {
      if other != id {
        SameLeases(attempts, all, other, st);
        assert StageOk(attempts, other, st);
      }
    }
  }

  lemma RowOf(s: System, id: JobId)
    requires Inv(s) && id in s.rows
    ensures id in s.jobs && RowOk(s.attempts, s.rows[id], s.jobs[id], id) && Sound(s.jobs[id])
  {
    hide RowOk;
    hide Sound;
  }

  lemma OthersSame(attempts: map<Lease, Attempt>, lease: Lease, id: JobId, model: string, stage: Stage,
                   inputs: Option<seq<Tree.Node>>, number: nat)
    requires lease !in attempts
    ensures forall other :: other != id ==> SameFor(attempts, WithAttempt(attempts, lease, id, model, stage, inputs, number), other)
  {
  }

  lemma StartKeeps(s: System, id: JobId, model: string, after: Execution, lease: Lease, stage: Stage,
                   inputs: Option<seq<Tree.Node>>)
    requires Inv(s) && id in s.rows && id in s.jobs && lease !in s.attempts
    requires s.rows[id].state.Ready? || s.rows[id].state.Retry?
    requires NextTask(s.jobs[id]) == Ok(Task(stage, inputs))
    requires after.state.Running? && after.step == Some(stage) && after.lease == Some(lease)
    requires after.attempts == AttemptNumber(s.rows[id], stage)
    ensures Inv(DoBegin(s, id, model, lease, Started(after, stage, inputs)))
  {
    hide RowOk;
    hide RowsOk;
    hide JobsOk;
    hide StagesOk;
    hide StageOk;
    hide Sound;
    hide SameFor;
    hide NextTask;
    RowOf(s, id);
    StartedRowOk(s.attempts, s.rows[id], s.jobs[id], id, model, after, lease, stage, inputs);
    var all := WithAttempt(s.attempts, lease, id, model, stage, inputs, after.attempts);
    OthersSame(s.attempts, lease, id, model, stage, inputs, after.attempts);
    StartedRows(s.jobs, s.rows, s.attempts, all, id, after);
    StartedStages(s.attempts, all, id);
  }

  lemma SettleKeeps(s: System, id: JobId, model: string, after: Execution, lease: Lease)
    requires Inv(s) && id in s.jobs && RowOk(s.attempts, after, s.jobs[id], id)
    ensures Inv(DoBegin(s, id, model, lease, Settled(after)))
  {
    hide RowOk;
    RowReplaced(s.jobs, s.rows, s.attempts, id, after);
  }

  lemma StartedFrom(row: Execution, job: SummaryJob.Job, model: string, g: Grants, now: real, lease: Lease,
                    current: bool, tooLarge: bool)
    requires BeginStep(row, job, model, g, now, lease, current, tooLarge).Started?
    ensures var begun := BeginStep(row, job, model, g, now, lease, current, tooLarge);
            && !row.state.Running? && Open(row)
            && NextTask(job) == Ok(Task(begun.stage, begun.inputs))
            && begun.row.state.Running? && begun.row.step == Some(begun.stage) && begun.row.lease == Some(lease)
            && begun.row.attempts == AttemptNumber(row, begun.stage)
  {
    hide NextTask;
  }

  lemma BeginKeeps(s: System, id: JobId, model: string, g: Grants, now: real, lease: Lease, current: bool,
                   tooLarge: bool)
    requires Inv(s) && id in s.rows && id in s.jobs && lease !in s.attempts
    ensures Inv(DoBegin(s, id, model, lease, BeginStep(s.rows[id], s.jobs[id], model, g, now, lease, current, tooLarge)))
  {
    hide Inv;
    hide RowOk;
    hide Sound;
    hide BeginStep;
    RowOf(s, id);
    var row, job := s.rows[id], s.jobs[id];
    var begun := BeginStep(row, job, model, g, now, lease, current, tooLarge);
    if begun.Settled? {
      SettledRowOk(s.attempts, row, job, id, model, g, now, lease, current, tooLarge);
      SettleKeeps(s, id, model, begun.row, lease);
    } else if begun.Started? {
      StartedFrom(row, job, model, g, now, lease, current, tooLarge);
      StartKeeps(s, id, model, begun.row, lease, begun.stage, begun.inputs);
    }
  }

  lemma CallKeepsRow(attempts: map<Lease, Attempt>, lease: Lease, call: Call, row: Execution, job: SummaryJob.Job,
                     id: JobId)
    requires lease in attempts && attempts[lease].call != NeverSent && RowOk(attempts, row, job, id)
    ensures RowOk(attempts[lease := attempts[lease].(call := call)], row, job, id)
  {
    var all := attempts[lease := attempts[lease].(call := call)];
    forall st ensures CountOk(all, row, job, id, st) {
      assert CountOk(attempts, row, job, id, st);
      assert LeasesFor(all, id, st) == LeasesFor(attempts, id, st);
    }
  }

  /** A call under a lease moves on; no attempt leaves the state of a call proved never sent. */
  lemma CallKeeps(s: System, lease: Lease, call: Call)
    requires Inv(s) && lease in s.attempts && s.attempts[lease].call != NeverSent
    ensures Inv(WithCall(s, lease, call))
  {
    var t := WithCall(s, lease, call);
    forall id, st ensures StageOk(t.attempts, id, st) {
      assert StageOk(s.attempts, id, st);
      assert LeasesFor(t.attempts, id, st) == LeasesFor(s.attempts, id, st);
    }
    forall id | id in s.rows ensures id in s.jobs && RowOk(t.attempts, s.rows[id], s.jobs[id], id) {
      CallKeepsRow(s.attempts, lease, call, s.rows[id], s.jobs[id], id);
    }
  }

  lemma ApplyKeepsSound(job: SummaryJob.Job, stage: Stage, inputs: Option<seq<Tree.Node>>, reply: ModelReply,
                        v: Verdict)
    requires Sound(job) && Apply(job, stage, inputs, reply, v).Some?
    requires stage.ReduceStage? ==>
      inputs.Some? && AllDrafted(job) && Tree.Next(PartIds(job), DraftTexts(job.drafts), job.reductions) == Tree.Missing(stage.node, inputs.value)
    ensures var after := Apply(job, stage, inputs, reply, v).value;
            Sound(after) && Extends(job, after) && StageDone(after, stage)
  {
    hide Sound;
    hide Tree.Next;
    hide DraftAcceptable;
    hide SynthesisAcceptable;
    hide Tree.Acceptable;
    match stage
    case PartStage(part) => DraftKeepsSound(job, part, reply.asDraft, v);
    case ReduceStage(node) => ReductionKeepsSound(job, node, inputs.value, reply.asTree, v);
    case Synthesis => RecordKeepsSound(job, v.proposal);
  }

  lemma RecordKeepsSound(job: SummaryJob.Job, record: Option<nat>)
    requires Sound(job) && AllDrafted(job) && record.Some?
    ensures Sound(job.(record := record)) && Extends(job, job.(record := record))
  {
    var after := job.(record := record);
    assert PartIds(after) == PartIds(job);
    assert JobLeaves(after) == JobLeaves(job);
  }

  lemma CommittedRowOk(attempts: map<Lease, Attempt>, row: Execution, job: SummaryJob.Job, after: SummaryJob.Job,
                       id: JobId, stage: Stage)
    requires RowOk(attempts, row, job, id) && row.state.Running? && row.step == Some(stage)
    requires Extends(job, after) && StageDone(after, stage)
    ensures RowOk(attempts, Committed(row, stage), after, id)
  {
    forall st ensures CountOk(attempts, Committed(row, stage), after, id, st) {
      assert CountOk(attempts, row, job, id, st);
      if StageDone(job, st) {
        DoneStaysDone(job, after, st);
      }
    }
  }

  lemma CommitKeeps(s: System, lease: Lease, reply: ModelReply, g: Grants, now: real, v: Verdict)
    requires Inv(s)
    ensures Inv(DoCommit(s, lease, reply, g, now, v))
  {
    if lease in s.attempts && DoCommit(s, lease, reply, g, now, v) != s {
      var at := s.attempts[lease];
      var id, row, job := at.job, s.rows[at.job], s.jobs[at.job];
      ApplyKeepsSound(job, at.stage, at.inputs, reply, v);
      var after := Apply(job, at.stage, at.inputs, reply, v).value;
      CommittedRowOk(s.attempts, row, job, after, id, at.stage);
      RowAndJobReplaced(s.jobs, s.rows, s.attempts, id, Committed(row, at.stage), after);
    }
  }

  lemma FailedRowOk(attempts: map<Lease, Attempt>, row: Execution, job: SummaryJob.Job, id: JobId, lease: Lease,
                    error: Code, retry: bool, now: real)
    requires RowOk(attempts, row, job, id)
    requires retry && row.lease == Some(lease) ==> row.attempts < MAX_ATTEMPTS && lease in attempts && attempts[lease].call == NeverSent
    ensures RowOk(attempts, Failed(row, lease, error, retry, now), job, id)
  {
    var after := Failed(row, lease, error, retry, now);
    forall stage ensures CountOk(attempts, after, job, id, stage) {
      assert CountOk(attempts, row, job, id, stage);
    }
  }

  lemma FailKeeps(s: System, lease: Lease, error: Code, now: real)
    requires Inv(s)
    ensures Inv(DoFail(s, lease, error, now))
  {
    if lease in s.attempts {
      var at := s.attempts[lease];
      var row, job := s.rows[at.job], s.jobs[at.job];
      var retry := at.call == NeverSent && at.number < MAX_ATTEMPTS;
      FailedRowOk(s.attempts, row, job, at.job, lease, error, retry, now);
      RowReplaced(s.jobs, s.rows, s.attempts, at.job, Failed(row, lease, error, retry, now));
    }
  }

  lemma WithJobKeeps(s: System, id: JobId, after: SummaryJob.Job)
    requires Inv(s) && id in s.jobs && Sound(after) && Extends(s.jobs[id], after)
    requires AllDrafted(s.jobs[id]) ==> after.drafts == s.jobs[id].drafts
    requires after.reductions == s.jobs[id].reductions
    ensures Inv(WithJob(s, id, after))
  {
    hide RowOk;
    hide Sound;
    if id in s.rows {
      GrownJobOk(s.attempts, s.rows[id], s.jobs[id], after, id);
      RowAndJobReplaced(s.jobs, s.rows, s.attempts, id, s.rows[id], after);
      assert s.rows[id := s.rows[id]] == s.rows;
    }
  }

  lemma OperatorDraftKeeps(s: System, id: JobId, part: nat, draft: DraftReply, v: Verdict)
    requires Inv(s) && id in s.jobs && DraftTaken(s.jobs[id], part, draft, v)
    ensures Inv(WithJob(s, id, WithDraft(s.jobs[id], part, draft.claims)))
  {
    DraftKeepsSound(s.jobs[id], part, draft, v);
    DraftInPlan(s.jobs[id], part, draft, v);
    WithJobKeeps(s, id, WithDraft(s.jobs[id], part, draft.claims));
  }

  lemma DraftInPlan(job: SummaryJob.Job, id: nat, reply: DraftReply, v: Verdict)
    requires DraftTaken(job, id, reply, v)
    ensures AllDrafted(job) ==> WithDraft(job, id, reply.claims) == job
    ensures Extends(job, WithDraft(job, id, reply.claims))
  {
    var part := PartById(job.parts, id).value;
    var i :| 0 <= i < |job.parts| && job.parts[i] == part;
    assert PartIds(job)[i] == id;
    assert id in Tree.Elements(PartIds(job));
  }

  lemma OperatorFinalizeKeeps(s: System, id: JobId, record: Option<nat>)
    requires Inv(s) && id in s.jobs && AllDrafted(s.jobs[id]) && record.Some?
    ensures Inv(WithJob(s, id, s.jobs[id].(record := record)))
  {
    RecordKeepsSound(s.jobs[id], record);
    WithJobKeeps(s, id, s.jobs[id].(record := record));
  }

  lemma CallActionKeeps(s: System, a: Action)
    requires Inv(s) && (a.Send? || a.Return?)
    ensures Inv(Perform(s, a))
  {
    hide Inv;
    if a.Send? && a.lease in s.attempts && s.attempts[a.lease].call == Unsent {
      CallKeeps(s, a.lease, InFlight);
    } else if a.Return? && a.lease in s.attempts && s.attempts[a.lease].call == InFlight {
      CallKeeps(s, a.lease, if a.dispatched then Answered else NeverSent);
    }
  }

  lemma OperatorActionKeeps(s: System, a: Action)
    requires Inv(s) && (a.OperatorDraft? || a.OperatorFinalize?)
    ensures Inv(Perform(s, a))
  {
    hide Inv;
    hide DraftTaken;
    hide Evidence;
    hide Sound;
    if a.OperatorDraft? && a.job in s.jobs && DraftTaken(s.jobs[a.job], a.part, a.draft, a.v) {
      OperatorDraftKeeps(s, a.job, a.part, a.draft, a.v);
    } else if a.OperatorFinalize? && a.job in s.jobs && SynthesisTaken(s.jobs[a.job], a.synthesis, a.v) {
      OperatorFinalizeKeeps(s, a.job, a.v.proposal);
    }
  }

  lemma WorkerActionKeeps(s: System, a: Action)
    requires Inv(s) && (a.Prepare? || a.Enqueue? || a.Commit? || a.Fail?)
    ensures Inv(Perform(s, a))
  {
    hide Inv;
    hide DoCommit;
    hide DoFail;
    hide DoEnqueue;
    hide DoPrepare;
    match a
    case Prepare(job, parts) => PrepareKeeps(s, job, parts);
    case Enqueue(job, model, g, current) => EnqueueKeeps(s, job, model, g, current);
    case Commit(lease, reply, g, now, v) => CommitKeeps(s, lease, reply, g, now, v);
    case Fail(lease, error, now) => FailKeeps(s, lease, error, now);
  }

  lemma PerformKeeps(s: System, a: Action)
    requires Inv(s)
    ensures Inv(Perform(s, a))
  {
    hide Inv;
    hide BeginStep;
    hide DoBegin;
    if a.Begin? {
      if a.job in s.rows && a.job in s.jobs && a.lease !in s.attempts {
        BeginKeeps(s, a.job, a.model, a.g, a.now, a.lease, a.current, a.tooLarge);
      }
    } else if a.Send? || a.Return? {
      CallActionKeeps(s, a);
    } else if a.OperatorDraft? || a.OperatorFinalize? {
      OperatorActionKeeps(s, a);
    } else {
      WorkerActionKeeps(s, a);
    }
  }

  lemma {:induction false} RunKeeps(s: System, actions: seq<Action>)
    requires Inv(s)
    ensures Inv(Run(s, actions))
  {
    if actions != [] {
      RunKeeps(s, actions[..|actions| - 1]);
      PerformKeeps(Run(s, actions[..|actions| - 1]), actions[|actions| - 1]);
    }
  }

  // ---------------------------------------------------------------- main results

  lemma SubsetSize<T>(a: set<T>, b: set<T>)
    requires a <= b
    ensures |a| <= |b|
  {
    if a != {} {
      var x :| x in a;
      SubsetSize(a - {x}, b - {x});
    }
  }

  lemma AtMostOne<T>(a: set<T>)
    requires forall x, y :: x in a && y in a ==> x == y
    ensures |a| <= 1
  {
    if a != {} {
      var x :| x in a;
      assert a == {x};
    }
  }

  lemma {:induction false} RunsKeepInv(actions: seq<Action>)
    ensures Inv(Run(Start, actions))
  {
    assert forall id, st :: LeasesFor(Start.attempts, id, st) == {};
    RunKeeps(Start, actions);
  }

  lemma StageOfRun(s: System, job: JobId, stage: Stage)
    requires Inv(s)
    ensures StageOk(s.attempts, job, stage)
  {
    hide StageOk;
  }

  /**
   In every run, each stage of each job is dispatched at most three times, and at most
   one of those calls ends otherwise than in proof that nothing was sent.
   */
  lemma {:induction false} AtMostOnceDispatch(actions: seq<Action>, job: JobId, stage: Stage)
    ensures var s := Run(Start, actions);
            |Calls(s.attempts, job, stage)| <= 3 && |UncertainCalls(s.attempts, job, stage)| <= 1
  {
    hide Run;
    hide Inv;
    RunsKeepInv(actions);
    var s := Run(Start, actions);
    StageOfRun(s, job, stage);
    SubsetSize(Calls(s.attempts, job, stage), LeasesFor(s.attempts, job, stage));
    forall x, y | x in UncertainCalls(s.attempts, job, stage) && y in UncertainCalls(s.attempts, job, stage) ensures x == y {
      assert x in LeasesFor(s.attempts, job, stage) && y in LeasesFor(s.attempts, job, stage);
    }
    AtMostOne(UncertainCalls(s.attempts, job, stage));
  }

  /** In every run the next stage of a job without a record can be named from its rows; no reduction input has changed. */
  lemma {:induction false} NextStageAlwaysKnown(actions: seq<Action>, job: JobId)
    requires job in Run(Start, actions).jobs
    ensures NextTask(Run(Start, actions).jobs[job]).Ok?
  {
    hide Run;
    RunsKeepInv(actions);
    var j := Run(Start, actions).jobs[job];
    if j.record.None? {
      var k := NextIsFirstNotDone(j);
    }
  }

  lemma SettledStays(s: System, a: Action, job: JobId)
    requires job in s.rows && (s.rows[job].state.Blocked? || s.rows[job].state.Complete?)
    ensures job in Perform(s, a).rows && Perform(s, a).rows[job] == s.rows[job]
  {
  }

  /** Blocked and complete rows are never touched again, whatever happens. */
  lemma {:induction false} SettledForever(s: System, actions: seq<Action>, job: JobId)
    requires job in s.rows && (s.rows[job].state.Blocked? || s.rows[job].state.Complete?)
    ensures job in Run(s, actions).rows && Run(s, actions).rows[job] == s.rows[job]
  {
    hide Perform;
    if actions != [] {
      SettledForever(s, actions[..|actions| - 1], job);
      SettledStays(Run(s, actions[..|actions| - 1]), actions[|actions| - 1], job);
    }
  }

  /** A worker changes a job only under the unexpired lease its result was asked for, and only by that stage. */
  lemma CommitsUnderLeaseOnly(s: System, a: Action, job: JobId)
    requires job in s.jobs && !a.OperatorDraft? && !a.OperatorFinalize?
    requires Perform(s, a).jobs != s.jobs && job in s.jobs && Perform(s, a).jobs[job] != s.jobs[job]
    ensures && a.Commit? && a.lease in s.attempts && s.attempts[a.lease].job == job && s.attempts[a.lease].call == Answered
            && job in s.rows && s.rows[job].state.Running? && s.rows[job].lease == Some(a.lease) && a.now < s.rows[job].leaseUntil
            && !HoldsLease(Perform(s, a).rows[job], a.lease, a.now)
            && Apply(s.jobs[job], s.attempts[a.lease].stage, s.attempts[a.lease].inputs, a.reply, a.v) == Some(Perform(s, a).jobs[job])
  {
  }

  // ---------------------------------------------------------------- the whole cost of a job

  /** Every attempt ever made was for a stage of its job's course. */
  ghost predicate Planned(s: System) {
    forall l :: l in s.attempts ==> s.attempts[l].job in s.jobs && s.attempts[l].stage in Course(s.jobs[s.attempts[l].job].parts)
  }

  lemma ApplyExtends(job: SummaryJob.Job, stage: Stage, inputs: Option<seq<Tree.Node>>, reply: ModelReply, v: Verdict)
    requires Apply(job, stage, inputs, reply, v).Some?
    ensures Extends(job, Apply(job, stage, inputs, reply, v).value)
  {
    hide DraftAcceptable, SynthesisAcceptable, Evidence, Tree.Acceptable;
  }

  lemma StepExtends(s: System, a: Action, id: JobId)
    requires id in s.jobs
    ensures id in Perform(s, a).jobs && Extends(s.jobs[id], Perform(s, a).jobs[id])
  {
    hide Apply, BeginStep, DraftAcceptable, SynthesisAcceptable, Evidence;
    if a.Commit? && a.lease in s.attempts && Perform(s, a) != s {
      var at := s.attempts[a.lease];
      ApplyExtends(s.jobs[at.job], at.stage, at.inputs, a.reply, a.v);
    }
  }

  /** Over any run the plan of a job, its drafts and its saved reductions never change once they are there, nor is a record lost. */
  lemma {:induction false} SavedWorkStays(s: System, actions: seq<Action>, id: JobId)
    requires id in s.jobs
    ensures id in Run(s, actions).jobs && Extends(s.jobs[id], Run(s, actions).jobs[id])
  {
    hide Perform;
    if actions != [] {
      SavedWorkStays(s, actions[..|actions| - 1], id);
      StepExtends(Run(s, actions[..|actions| - 1]), actions[|actions| - 1], id);
    }
  }

  lemma BegunIsNext(row: Execution, job: SummaryJob.Job, model: string, g: Grants, now: real, lease: Lease,
                    current: bool, tooLarge: bool)
    requires BeginStep(row, job, model, g, now, lease, current, tooLarge).Started?
    ensures job.record.None? && NextTask(job).Ok? && NextTask(job).value.Task?
    ensures BeginStep(row, job, model, g, now, lease, current, tooLarge).stage == NextTask(job).value.stage
  {
  }

  lemma BeginIsPlanned(s: System, a: Action)
    requires Inv(s) && a.Begin? && a.job in s.rows && a.job in s.jobs && a.lease !in s.attempts
    ensures a.lease in Perform(s, a).attempts ==>
              Perform(s, a).attempts[a.lease].job == a.job && Perform(s, a).attempts[a.lease].stage in Course(s.jobs[a.job].parts)
  {
    hide Course;
    hide RowOk;
    var job := s.jobs[a.job];
    var begun := BeginStep(s.rows[a.job], job, a.model, a.g, a.now, a.lease, a.current, a.tooLarge);
    if begun.Started? {
      BegunIsNext(s.rows[a.job], job, a.model, a.g, a.now, a.lease, a.current, a.tooLarge);
      var k := NextIsFirstNotDone(job);
      assert begun.stage in Course(job.parts);
    }
  }

  lemma PerformKeepsPlanned(s: System, a: Action)
    requires Inv(s) && Planned(s)
    ensures Planned(Perform(s, a))
  {
    hide Course;
    hide Inv;
    hide BeginStep;
    hide Apply;
    hide Committable;
    hide DraftTaken;
    hide SynthesisTaken;
    forall id | id in s.jobs ensures id in Perform(s, a).jobs && Extends(s.jobs[id], Perform(s, a).jobs[id]) { StepExtends(s, a, id); }
    if a.Begin? && a.job in s.rows && a.job in s.jobs && a.lease !in s.attempts {
      BeginIsPlanned(s, a);
    }
  }

  lemma {:induction false} RunKeepsPlanned(actions: seq<Action>)
    ensures Inv(Run(Start, actions)) && Planned(Run(Start, actions))
  {
    if actions == [] {
      assert forall id, st :: LeasesFor(Start.attempts, id, st) == {};
    } else {
      RunKeepsPlanned(actions[..|actions| - 1]);
      PerformKeeps(Run(Start, actions[..|actions| - 1]), actions[|actions| - 1]);
      PerformKeepsPlanned(Run(Start, actions[..|actions| - 1]), actions[|actions| - 1]);
    }
  }

  function LeasesIn(attempts: map<Lease, Attempt>, id: JobId, stages: seq<Stage>): set<Lease> {
    set l | l in attempts && attempts[l].job == id && attempts[l].stage in stages
  }

  lemma {:induction false} LeasesWithin(attempts: map<Lease, Attempt>, id: JobId, stages: seq<Stage>)
    requires StagesOk(attempts)
    ensures |LeasesIn(attempts, id, stages)| <= 3 * |stages|
  {
    if stages == [] {
      assert LeasesIn(attempts, id, stages) == {};
    } else {
      var init, last := stages[..|stages| - 1], stages[|stages| - 1];
      LeasesWithin(attempts, id, init);
      assert StageOk(attempts, id, last);
      assert stages == init + [last];
      assert LeasesIn(attempts, id, stages) == LeasesIn(attempts, id, init) + LeasesFor(attempts, id, last);
    }
  }

  /** The model calls made for a job, over all its stages. */
  function AllCalls(attempts: map<Lease, Attempt>, id: JobId): set<Lease> {
    set l | l in attempts && attempts[l].job == id && !attempts[l].call.Unsent?
  }

  /** Whatever happens, a summary over n parts never causes more than 6n model calls. */
  lemma {:induction false} CallsAreBounded(actions: seq<Action>, job: JobId)
    requires job in Run(Start, actions).jobs
    ensures var s := Run(Start, actions);
            |AllCalls(s.attempts, job)| <= 6 * |s.jobs[job].parts|
  {
    var s := Run(Start, actions);
    RunKeepsPlanned(actions);
    var course := Course(s.jobs[job].parts);
    LeasesWithin(s.attempts, job, course);
    CourseIsShort(s.jobs[job].parts);
    SubsetSize(AllCalls(s.attempts, job), LeasesIn(s.attempts, job, course));
  }
}
