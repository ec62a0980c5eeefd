/**
 Work that nothing hinders is finished: one worker, granted at every step, on a current source and
 with acceptable replies, brings a planned job to its record in as many rounds as it has stages. A
 round is four actions: begin, send, return, commit.
 */
module DispatchCompletion {
  import opened Wrappers
  import opened SummaryJob
  import opened SummaryJobProperties
  import opened SummaryWorker
  import opened DispatchProtocol
  import opened DispatchProgress
  import Plan = SummaryPlan
  import Tree = ReductionTree

  const Granted := Grants(true, true, true)

  // What the model answers, and the catalogue says, for the job as it then stands.
  datatype Answer = Answer(reply: ModelReply, verdict: Verdict)

  /** The answer is acceptable for what the job asks for next. */
  predicate Serves(job: SummaryJob.Job, a: Answer) {
    && NextTask(job).Ok? && NextTask(job).value.Task? && !a.reply.oversized
    && Apply(job, NextTask(job).value.stage, NextTask(job).value.inputs, a.reply, a.verdict).Some?
  }

  function Served(job: SummaryJob.Job, a: Answer): SummaryJob.Job
    requires Serves(job, a)
  {
    Apply(job, NextTask(job).value.stage, NextTask(job).value.inputs, a.reply, a.verdict).value
  }

  /** For the next `n` stages, as long as the job is not finished, the answers are acceptable. */
  predicate ServesOn(job: SummaryJob.Job, answers: SummaryJob.Job -> Answer, n: nat)
    decreases n
  {
    n == 0 || job.record.Some? || (Serves(job, answers(job)) && ServesOn(Served(job, answers(job)), answers, n - 1))
  }

  function Round(id: JobId, model: string, lease: Lease, now: real, a: Answer): seq<Action> {
    [Begin(id, model, Granted, now, lease, true, false), Send(lease), Return(lease, true), Commit(lease, a.reply, Granted, now, a.verdict)]
  }

  lemma {:induction false} RunRound(s: System, a: Action, b: Action, c: Action, d: Action)
    ensures Run(s, [a, b, c, d]) == Perform(Perform(Perform(Perform(s, a), b), c), d)
  {
    hide Perform;
    assert [a, b, c, d][..3] == [a, b, c] && [a, b, c][..2] == [a, b] && [a, b][..1] == [a] && [a][..0] == [];
    assert Run(s, [a]) == Perform(s, a);
    assert Run(s, [a, b]) == Perform(Run(s, [a]), b);
    assert Run(s, [a, b, c]) == Perform(Run(s, [a, b]), c);
  }

  lemma {:induction false} RunJoin(s: System, a: seq<Action>, b: seq<Action>)
    ensures Run(s, a + b) == Run(Run(s, a), b)
  {
    hide Perform;
    if b == [] {
      assert a + b == a;
    } else {
      RunJoin(s, a, b[..|b| - 1]);
      assert (a + b)[..|a + b| - 1] == a + b[..|b| - 1];
    }
  }

  // ---------------------------------------------------------------- one round

  lemma Begins(s: System, id: JobId, lease: Lease, now: real)
    requires id in s.rows && id in s.jobs && lease !in s.attempts && s.rows[id].nextAttempt <= now
    requires s.rows[id].state.Ready? || s.rows[id].state.Retry?
    requires NextTask(s.jobs[id]).Ok? && NextTask(s.jobs[id]).value.Task?
    ensures var t := Perform(s, Begin(id, s.rows[id].model, Granted, now, lease, true, false));
      var task := NextTask(s.jobs[id]).value;
      && t.jobs == s.jobs && id in t.rows && t.rows == s.rows[id := t.rows[id]]
      && t.rows[id].state.Running? && t.rows[id].lease == Some(lease) && t.rows[id].leaseUntil == now + 120.0
      && t.rows[id].model == s.rows[id].model && t.rows[id].step == Some(task.stage) && t.rows[id].nextAttempt == 0.0
      && t.attempts == s.attempts[lease := Attempt(id, s.rows[id].model, task.stage, task.inputs, t.rows[id].attempts, Unsent)]
  {
    hide NextTask;
  }

  lemma Calls(s: System, lease: Lease)
    requires lease in s.attempts && s.attempts[lease].call == Unsent
    ensures Perform(Perform(s, Send(lease)), Return(lease, true))
            == s.(attempts := s.attempts[lease := s.attempts[lease].(call := Answered)])
  {
  }

  lemma Commits(s: System, lease: Lease, now: real, a: Answer)
    requires lease in s.attempts && s.attempts[lease].call == Answered && s.attempts[lease].job in s.rows && s.attempts[lease].job in s.jobs
    requires var at := s.attempts[lease];
      && s.rows[at.job].state.Running? && s.rows[at.job].lease == Some(lease) && now < s.rows[at.job].leaseUntil
      && s.rows[at.job].model == at.model && !a.reply.oversized
      && Apply(s.jobs[at.job], at.stage, at.inputs, a.reply, a.verdict).Some?
    ensures var t, at := Perform(s, Commit(lease, a.reply, Granted, now, a.verdict)), s.attempts[lease];
      && t.jobs == s.jobs[at.job := Apply(s.jobs[at.job], at.stage, at.inputs, a.reply, a.verdict).value]
      && at.job in t.rows && t.rows == s.rows[at.job := t.rows[at.job]] && t.attempts == s.attempts
      && t.rows[at.job].state == (if at.stage.Synthesis? then Complete else Ready) && t.rows[at.job].lease.None?
      && t.rows[at.job].model == at.model && t.rows[at.job].nextAttempt == s.rows[at.job].nextAttempt
  {
    hide Apply;
  }

  /** A round does exactly the stage that is next, and leaves the row ready for the one after it. */
  lemma {:induction false} RoundDoesNext(s: System, id: JobId, lease: Lease, now: real, a: Answer)
    requires id in s.rows && id in s.jobs && lease !in s.attempts && s.rows[id].nextAttempt <= now
    requires s.rows[id].state.Ready? || s.rows[id].state.Retry?
    requires Serves(s.jobs[id], a)
    ensures var t := Run(s, Round(id, s.rows[id].model, lease, now, a));
      && t.jobs == s.jobs[id := Served(s.jobs[id], a)] && id in t.rows && t.rows == s.rows[id := t.rows[id]]
      && t.rows[id].state == (if NextTask(s.jobs[id]).value.stage.Synthesis? then Complete else Ready)
      && t.rows[id].model == s.rows[id].model && t.rows[id].nextAttempt == 0.0 && t.rows[id].lease.None?
      && t.attempts.Keys == s.attempts.Keys + {lease}
  {
    hide Run, Perform, NextTask, Apply;
    var b, c := Begin(id, s.rows[id].model, Granted, now, lease, true, false), Commit(lease, a.reply, Granted, now, a.verdict);
    RunRound(s, b, Send(lease), Return(lease, true), c);
    Begins(s, id, lease, now);
    var t := Perform(s, b);
    Calls(t, lease);
    var u := Perform(Perform(t, Send(lease)), Return(lease, true));
    Commits(u, lease, now, a);
  }

  // ---------------------------------------------------------------- all rounds

  lemma {:induction false} UnusedLease(attempts: map<Lease, Attempt>) returns (lease: Lease)
    ensures lease !in attempts
  {
    lease := AboveAll(attempts.Keys);
  }

  lemma {:induction false} AboveAll(leases: set<Lease>) returns (lease: Lease)
    ensures forall l :: l in leases ==> l < lease
    decreases |leases|
  {
    lease := 0;
    if l :| l in leases {
      var others := leases - {l};
      var above := AboveAll(others);
      lease := if above <= l then l + 1 else above;
      assert forall k :: k in leases ==> k == l || k in others;
    }
  }

  /** An acceptable answer leaves one stage less, and gives the job its record exactly if that was the synthesis. */
  lemma {:induction false} ServedIsLess(job: SummaryJob.Job, a: Answer)
    requires Sound(job) && job.record.None? && Serves(job, a)
    ensures Served(job, a).parts == job.parts
    ensures StagesLeft(Served(job, a), Course(job.parts)) < StagesLeft(job, Course(job.parts))
    ensures Served(job, a).record.Some? <==> NextTask(job).value.stage.Synthesis?
  {
    hide Sound, NextTask, Apply, Course, StagesLeft;
    var stage, after := NextTask(job).value.stage, Served(job, a);
    var k := NextIsFirstNotDone(job);
    ApplyExtends(job, stage, NextTask(job).value.inputs, a.reply, a.verdict);
    ApplyDone(job, stage, NextTask(job).value.inputs, a.reply, a.verdict);
    GrowthLeaves(job, after, Course(job.parts));
    assert StageDone(after, Course(job.parts)[k]) && !StageDone(job, Course(job.parts)[k]);
    RecordBySynthesis(job, a);
  }

  lemma RecordBySynthesis(job: SummaryJob.Job, a: Answer)
    requires job.record.None? && Serves(job, a)
    ensures Served(job, a).record.Some? <==> NextTask(job).value.stage.Synthesis?
  {
    hide NextTask, DraftAcceptable, SynthesisAcceptable, Evidence, Tree.Acceptable, AllDrafted;
  }

  /**
   From any state in which the job's row is ready or its back-off is over, a worker that is granted at
   every step and gets acceptable answers finishes the job: the record is there and the row complete
   after at most one round for each stage that was left.
   */
  lemma {:induction false} RoundsFinish(s: System, id: JobId, now: real, answers: SummaryJob.Job -> Answer) returns (actions: seq<Action>)
    requires Inv(s) && id in s.rows && id in s.jobs && s.jobs[id].record.None?
    requires s.rows[id].state.Ready? || s.rows[id].state.Retry?
    requires 0.0 <= now && s.rows[id].nextAttempt <= now
    requires ServesOn(s.jobs[id], answers, StagesLeft(s.jobs[id], Course(s.jobs[id].parts)))
    ensures |actions| <= 4 * StagesLeft(s.jobs[id], Course(s.jobs[id].parts))
    ensures var t := Run(s, actions);
      id in t.jobs && t.jobs[id].record.Some? && id in t.rows && t.rows[id].state.Complete?
    decreases StagesLeft(s.jobs[id], Course(s.jobs[id].parts))
  {
    hide Inv, Run, Perform, Sound, NextTask, Apply, Course, StagesLeft, Serves, Served;
    var job := s.jobs[id];
    RowOf(s, id);
    SomethingLeft(job);
    assert ServesOn(job, answers, StagesLeft(job, Course(job.parts)));
    var lease := UnusedLease(s.attempts);
    var a := answers(job);
    var round := Round(id, s.rows[id].model, lease, now, a);
    RoundDoesNext(s, id, lease, now, a);
    ServedIsLess(job, a);
    RunKeeps(s, round);
    var t := Run(s, round);
    actions := round;
    if t.jobs[id].record.None? {
      ServesLess(t.jobs[id], answers, StagesLeft(job, Course(job.parts)) - 1, StagesLeft(t.jobs[id], Course(job.parts)));
      var rest := RoundsFinish(t, id, now, answers);
      RunJoin(s, round, rest);
      actions := round + rest;
    }
  }

  lemma {:induction false} ServesLess(job: SummaryJob.Job, answers: SummaryJob.Job -> Answer, n: nat, m: nat)
    requires ServesOn(job, answers, n) && m <= n
    ensures ServesOn(job, answers, m)
    decreases n
  {
    hide Serves, Served;
    if m > 0 && job.record.None? { ServesLess(Served(job, answers(job)), answers, n - 1, m - 1); }
  }

  lemma {:induction false} SomethingLeft(job: SummaryJob.Job)
    requires Sound(job) && job.record.None?
    ensures StagesLeft(job, Course(job.parts)) > 0
  {
    hide Sound, NextTask;
    var k := NextIsFirstNotDone(job);
    NoneLeftDone(job, Course(job.parts), k);
  }

  lemma {:induction false} NoneLeftDone(job: SummaryJob.Job, course: seq<Stage>, k: nat)
    requires k < |course| && !StageDone(job, course[k])
    ensures StagesLeft(job, course) > 0
  {
    hide StageDone;
    if k < |course| - 1 { NoneLeftDone(job, course[..|course| - 1], k); }
  }

  lemma {:induction false} LeftAtMostAll(job: SummaryJob.Job, course: seq<Stage>)
    ensures StagesLeft(job, course) <= |course|
  {
    hide StageDone;
    if course != [] { LeftAtMostAll(job, course[..|course| - 1]); }
  }

  /**
   So from a new plan on: prepared, queued and served, a job of n parts has its record after at most
   2 + 8n actions.
   */
  lemma {:induction false} PlannedJobFinishes(id: JobId, model: string, parts: seq<Plan.Part>, now: real, answers: SummaryJob.Job -> Answer)
    returns (actions: seq<Action>)
    requires Numbered(parts) && now >= 0.0
    requires ServesOn(SummaryJob.Job(parts, map[], map[], None), answers, 2 * |parts|)
    ensures |actions| <= 2 + 8 * |parts|
    ensures var t := Run(Start, actions);
      id in t.jobs && t.jobs[id].parts == parts && t.jobs[id].record.Some? && id in t.rows && t.rows[id].state.Complete?
  {
    hide Inv, Numbered, Course, StagesLeft, ServesOn;
    var opening := [Prepare(id, parts), DispatchProtocol.Action.Enqueue(id, model, Granted, true)];
    var job := SummaryJob.Job(parts, map[], map[], None);
    assert opening[..1] == [opening[0]] && [opening[0]][..0] == [];
    var s := Run(Start, opening);
    assert s == System(map[id := job], map[id := Queued(model)], map[]) by { Opened(id, model, parts); }
    RunsKeepInv(opening);
    LeftAtMostAll(job, Course(parts));
    assert parts != [] by { NotEmpty(parts); }
    CourseIsShort(parts);
    ServesLess(job, answers, 2 * |parts|, StagesLeft(job, Course(parts)));
    var rest := RoundsFinish(s, id, now, answers);
    RunJoin(Start, opening, rest);
    actions := opening + rest;
    PlanStays(s, rest, id);
  }

  lemma NotEmpty(parts: seq<Plan.Part>)
    requires Numbered(parts)
    ensures parts != []
  {
  }

  lemma {:induction false} Opened(id: JobId, model: string, parts: seq<Plan.Part>)
    requires Numbered(parts)
    ensures Run(Start, [Prepare(id, parts), DispatchProtocol.Action.Enqueue(id, model, Granted, true)])
            == System(map[id := SummaryJob.Job(parts, map[], map[], None)], map[id := Queued(model)], map[])
  {
    hide Numbered;
    var a, b := Prepare(id, parts), DispatchProtocol.Action.Enqueue(id, model, Granted, true);
    assert [a, b][..1] == [a] && [a][..0] == [];
    assert Run(Start, [a]) == Perform(Start, a);
  }

  lemma {:induction false} PlanStays(s: System, actions: seq<Action>, id: JobId)
    requires id in s.jobs
    ensures id in Run(s, actions).jobs && Run(s, actions).jobs[id].parts == s.jobs[id].parts
  {
    hide Perform, Extends;
    if actions != [] {
      var before := actions[..|actions| - 1];
      PlanStays(s, before, id);
      StepExtends(Run(s, before), actions[|actions| - 1], id);
      SameParts(Run(s, before).jobs[id], Run(s, actions).jobs[id]);
    }
  }

  // ---------------------------------------------------------------- the operator

  /** A draft or a synthesis that the operator submits is taken by the same checks, and changes nothing but its job. */
  lemma OperatorActs(s: System, id: JobId, part: nat, draft: DraftReply, synthesis: Tree.Reply, v: Verdict)
    requires id in s.jobs
    ensures Perform(s, OperatorDraft(id, part, draft, v)) ==
      if DraftTaken(s.jobs[id], part, draft, v)
      then s.(jobs := s.jobs[id := s.jobs[id].(drafts := s.jobs[id].drafts[part := draft.claims])]) else s
    ensures Perform(s, OperatorFinalize(id, synthesis, v)) ==
      if SynthesisTaken(s.jobs[id], synthesis, v) then s.(jobs := s.jobs[id := s.jobs[id].(record := v.proposal)]) else s
  {
    hide DraftAcceptable, SynthesisAcceptable, Evidence, AllDrafted;
    if DraftTaken(s.jobs[id], part, draft, v) && part in s.jobs[id].drafts {
      assert s.jobs[id].drafts[part := draft.claims] == s.jobs[id].drafts;
    }
  }
}
