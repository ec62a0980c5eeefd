/**
 The queue of semantic work: one row per summary job, a lease per attempt. A step of the
 worker is three transactions with the model call between them, and other workers, the
 operator and crashes may act in each gap: begin the step, then either commit the result
 or settle the failure.
 */
module SummaryWorker {
  import opened Wrappers
  import opened SummaryJob
  import Tree = ReductionTree

  type JobId = nat
  type Lease = nat

  datatype Phase = Ready | Running | Retry | Blocked | Complete
  datatype Code = OutcomeUnknown | InputTooLarge | RevokedBeforeDispatch | NotDispatchedCode | ResultNotCommitted
  datatype Execution = Execution(model: string, state: Phase, step: Option<Stage>, attempts: nat,
                                 lease: Option<Lease>, leaseUntil: real, nextAttempt: real, error: Option<Code>)

  // The answers of the fresh authorization callback at the start of a transaction's
  // call, inside it, and again for the row it returns.
  datatype Grants = Grants(before: bool, inside: bool, after: bool)

  // One JSON reply of the model, read as part claims and as tree claims.
  datatype ModelReply = ModelReply(asDraft: DraftReply, asTree: Tree.Reply, oversized: bool)

  datatype Refusal = Denied | NotQueued | ModelChanged | JobUnavailable | LoadFailed(error: Error) | LeaseLost | InvalidResult | OutputTooLarge
  datatype Begun = Refused(error: Refusal) | Settled(row: Execution) | Started(row: Execution, stage: Stage, inputs: Option<seq<Tree.Node>>)

  const LEASE_SECONDS: real := 120.0
  const MAX_ATTEMPTS := 3

  // ---------------------------------------------------------------- the transactions, on values

  function Queued(model: string): Execution {
    Execution(model, Ready, None, 0, None, 0.0, 0.0, None)
  }

  function Released(row: Execution, state: Phase, error: Option<Code>): Execution {
    row.(state := state, error := error, lease := None, leaseUntil := 0.0)
  }

  /** A change whose new row is only returned, and only kept, while the grant still stands. */
  function Confirmed(g: Grants, row: Execution): Begun {
    if g.after then Settled(row) else Refused(Denied)
  }

  function AttemptNumber(row: Execution, stage: Stage): nat {
    if row.step == Some(stage) then row.attempts + 1 else 1
  }

  function BeginStep(row: Execution, job: SummaryJob.Job, model: string, g: Grants, now: real, lease: Lease,
                     current: bool, tooLarge: bool): Begun
  {
    if !g.before || !g.inside then Refused(Denied)
    else if row.model != model then Refused(ModelChanged)
    else if row.state.Complete? || row.state.Blocked? then Settled(row)
    else if row.state.Running? then
      if row.leaseUntil <= now then Confirmed(g, Released(row, Blocked, Some(OutcomeUnknown)))
      else if g.after then Settled(row) else Refused(Denied)
    else if row.nextAttempt > now then Settled(row)
    else if !current then Refused(LoadFailed(SourceUnavailable))
    else
      match NextTask(job)
      case Err(e) => Refused(LoadFailed(e))
      case Ok(Finished) => Confirmed(g, Released(row, Complete, None))
      case Ok(Task(stage, inputs)) =>
        if tooLarge then Confirmed(g, row.(state := Blocked, error := Some(InputTooLarge)))
        else
          Started(row.(state := Running, error := None, step := Some(stage), attempts := AttemptNumber(row, stage),
                       lease := Some(lease), leaseUntil := now + LEASE_SECONDS, nextAttempt := 0.0), stage, inputs)
  }

  /** What a result makes of the job, if it is acceptable for the stage it was asked for. */
  function Apply(job: SummaryJob.Job, stage: Stage, inputs: Option<seq<Tree.Node>>, reply: ModelReply,
                 v: Verdict): Option<SummaryJob.Job> {
    match stage
    case PartStage(part) =>
      if DraftTaken(job, part, reply.asDraft, v) then Some(WithDraft(job, part, reply.asDraft.claims)) else None
    case ReduceStage(node) =>
      if inputs.Some? && ReductionTaken(job, node, inputs.value, reply.asTree, v)
      then Some(WithReduction(job, node, inputs.value, reply.asTree.claims)) else None
    case Synthesis =>
      if SynthesisTaken(job, reply.asTree, v) && (inputs.Some? ==> Tree.Acceptable(reply.asTree.claims, inputs.value))
      then Some(job.(record := v.proposal)) else None
  }

  predicate HoldsLease(row: Execution, lease: Lease, now: real) {
    row.state.Running? && row.lease == Some(lease) && row.leaseUntil > now
  }

  predicate Committable(row: Execution, job: SummaryJob.Job, model: string, stage: Stage,
                        inputs: Option<seq<Tree.Node>>,
                        lease: Lease, reply: ModelReply, g: Grants, now: real, v: Verdict) {
    && g.before && g.inside && g.after && row.model == model && !reply.oversized
    && HoldsLease(row, lease, now)
    && Apply(job, stage, inputs, reply, v).Some?
  }

  function Committed(row: Execution, stage: Stage): Execution {
    Released(row, if stage.Synthesis? then Complete else Ready, None).(attempts := 0)
  }

  /** The bookkeeping after a step that did not commit. A lease that is no longer held changes nothing. */
  function Failed(row: Execution, lease: Lease, error: Code, retry: bool, now: real): Execution {
    if row.state.Running? && row.lease == Some(lease) then
      var delay := if row.attempts == 1 then 60.0 else 300.0;
      Released(row, if retry then Retry else Blocked, Some(error)).(nextAttempt := if retry then now + delay else 0.0)
    else row
  }

  // ---------------------------------------------------------------- the store the program updates

  class Store {
    var jobs: map<JobId, SummaryJob.Job>
    var executions: map<JobId, Execution>

    constructor ()
      ensures jobs == map[] && executions == map[]
    {
      jobs, executions := map[], map[];
    }

    /** Queue a job once; a second call, or another model, changes nothing. */
    method Enqueue(job: JobId, model: string, g: Grants, current: bool) returns (r: Result<Execution, Refusal>)
      modifies this`executions
      ensures r.Ok? <==> g.before && g.inside && job in jobs && current
                         && (job in old(executions) ==> old(executions)[job].model == model)
      ensures r.Ok? ==> executions == (if job in old(executions) then old(executions) else old(executions)[job := Queued(model)])
                        && r.value == executions[job]
      ensures r.Ok? && job !in old(executions) ==>
        && r.value.model == model && r.value.state.Ready? && r.value.step.None? && r.value.attempts == 0
        && r.value.lease.None? && r.value.nextAttempt == 0.0 && r.value.error.None?
      ensures r.Err? ==> executions == old(executions)
    {
      if !g.before { return Err(Denied); }
      if job !in jobs { return Err(JobUnavailable); }
      if !current { return Err(LoadFailed(SourceUnavailable)); }
      var before := executions;
      if job !in executions {
        executions := executions[job := Queued(model)];
      }
      if !g.inside { executions := before; return Err(Denied); }
      if executions[job].model != model { return Err(ModelChanged); }
      return Ok(executions[job]);
    }

    /** First transaction of a step: claim the next stage, or settle the row without a call. */
    method Begin(job: JobId, model: string, g: Grants, now: real, lease: Lease, current: bool,
                 tooLarge: bool) returns (r: Begun)
      requires forall j :: j in executions ==> j in jobs
      modifies this`executions
      ensures job !in old(executions) ==> r.Refused? && executions == old(executions)
      ensures job in old(executions) ==> r == BeginStep(old(executions)[job], jobs[job], model, g, now, lease, current, tooLarge)
      ensures job in old(executions) ==> executions == if r.Refused? then old(executions) else old(executions)[job := r.row]
      ensures r.Started? <==>
        && job in old(executions) && g.before && g.inside && old(executions)[job].model == model
        && (old(executions)[job].state.Ready? || old(executions)[job].state.Retry?) && old(executions)[job].nextAttempt <= now
        && current && !tooLarge && NextTask(jobs[job]).Ok? && NextTask(jobs[job]).value.Task?
      ensures r.Started? ==>
        var before, task := old(executions)[job], NextTask(jobs[job]).value;
        && r.stage == task.stage && r.inputs == task.inputs
        && r.row.state.Running? && r.row.step == Some(task.stage) && r.row.lease == Some(lease) && r.row.leaseUntil == now + 120.0
        && r.row.attempts == (if before.step == Some(task.stage) then before.attempts + 1 else 1) && r.row.model == model
      ensures r.Settled? ==>
        var before := old(executions)[job];
        && g.before && g.inside && before.model == model
        && (if before.state.Running? && before.leaseUntil <= now then
              g.after && r.row == before.(state := Blocked, error := Some(OutcomeUnknown), lease := None, leaseUntil := 0.0)
            else if (before.state.Ready? || before.state.Retry?) && before.nextAttempt <= now then
              && current && g.after && NextTask(jobs[job]).Ok?
              && r.row == (if jobs[job].record.Some? then before.(state := Complete, error := None, lease := None, leaseUntil := 0.0)
                           else before.(state := Blocked, error := Some(InputTooLarge)))
            else r.row == before)
    {
      if !g.before || !g.inside { return Refused(Denied); }
      if job !in executions { return Refused(NotQueued); }
      var row := executions[job];
      if row.model != model { return Refused(ModelChanged); }
      if row.state.Complete? || row.state.Blocked? {
        assert executions == executions[job := row];
        return Settled(row);
      }
      var before := executions;
      if row.state.Running? {
        if row.leaseUntil <= now {
          executions := executions[job := Released(row, Blocked, Some(OutcomeUnknown))];
        }
        if !g.after { executions := before; return Refused(Denied); }
        assert executions == before[job := executions[job]];
        return Settled(executions[job]);
      }
      if row.nextAttempt > now {
        assert executions == executions[job := row];
        return Settled(row);
      }
      if !current { return Refused(LoadFailed(SourceUnavailable)); }
      var next := NextTask(jobs[job]);
      if next.Err? { return Refused(LoadFailed(next.error)); }
      if next.value.Finished? {
        executions := executions[job := Released(row, Complete, None)];
        if !g.after { executions := before; return Refused(Denied); }
        return Settled(executions[job]);
      }
      if tooLarge {
        executions := executions[job := row.(state := Blocked, error := Some(InputTooLarge))];
        if !g.after { executions := before; return Refused(Denied); }
        return Settled(executions[job]);
      }
      var stage := next.value.stage;
      var attempts := if row.step == Some(stage) then row.attempts + 1 else 1;
      executions := executions[job := row.(state := Running, error := None, step := Some(stage), attempts := attempts,
                                           lease := Some(lease), leaseUntil := now + LEASE_SECONDS, nextAttempt := 0.0)];
      return Started(executions[job], stage, next.value.inputs);
    }

    /** Second transaction: the result and the queue row are saved together, or neither is. */
    method Commit(job: JobId, model: string, stage: Stage, inputs: Option<seq<Tree.Node>>, lease: Lease,
                  reply: ModelReply,
                  g: Grants, now: real, v: Verdict) returns (saved: bool)
      requires job in executions && job in jobs
      modifies this
      ensures saved <==> Committable(old(executions)[job], old(jobs)[job], model, stage, inputs, lease, reply, g, now, v)
      ensures saved ==> jobs == old(jobs)[job := Apply(old(jobs)[job], stage, inputs, reply, v).value]
                        && executions == old(executions)[job := Committed(old(executions)[job], stage)]
      ensures !saved ==> jobs == old(jobs) && executions == old(executions)
      ensures saved <==>
        && g.before && g.inside && g.after && !reply.oversized
        && old(executions)[job].model == model && old(executions)[job].state.Running?
        && old(executions)[job].lease == Some(lease) && now < old(executions)[job].leaseUntil
        && match stage
           case PartStage(part) => DraftTaken(old(jobs)[job], part, reply.asDraft, v)
           case ReduceStage(node) =>
             && v.current && inputs.Some? && reply.asTree.Claims? && node !in old(jobs)[job].reductions
             && Tree.Acceptable(reply.asTree.claims, inputs.value)
           case Synthesis =>
             SynthesisTaken(old(jobs)[job], reply.asTree, v) && (inputs.Some? ==> Tree.Acceptable(reply.asTree.claims, inputs.value))
      ensures saved ==>
        var row, after := old(executions)[job], executions[job];
        && g.before && g.inside && g.after && !reply.oversized
        && row.model == model && row.state.Running? && row.lease == Some(lease) && row.leaseUntil > now
        && after.state == (if stage == Synthesis then Complete else Ready)
        && after.lease.None? && after.leaseUntil == 0.0 && after.attempts == 0 && after.error.None?
        && after.model == row.model && after.step == row.step && after.nextAttempt == row.nextAttempt
      ensures saved ==>
        var before := old(jobs)[job];
        match stage
        case PartStage(part) => reply.asDraft.Draft? && jobs[job] == before.(drafts := before.drafts[part := reply.asDraft.claims])
        case ReduceStage(node) =>
          && inputs.Some? && reply.asTree.Claims? && node !in before.reductions
          && jobs[job] == before.(reductions := before.reductions[node := Tree.Reduction(inputs.value, reply.asTree.claims)])
        case Synthesis => v.proposal.Some? && jobs[job] == before.(record := v.proposal)
    {
      if !g.before || reply.oversized { return false; }
      var row := executions[job];
      if !g.inside || row.model != model { return false; }
      if !(row.state.Running? && row.lease == Some(lease) && row.leaseUntil > now) { return false; }
      var beforeJobs, beforeRows := jobs, executions;
      match stage {
        case PartStage(part) =>
          var taken := SavePart(job, part, reply.asDraft, v);
          if !taken { return false; }
        case ReduceStage(node) =>
          if inputs.None? || !v.current { return false; }
          var claims := Tree.ValidateClaims(reply.asTree, inputs.value);
          if claims.Err? || node in jobs[job].reductions { return false; }
          jobs := jobs[job := jobs[job].(reductions := jobs[job].reductions[node := Tree.Reduction(inputs.value, claims.value)])];
        case Synthesis =>
          if inputs.Some? {
            var claims := Tree.ValidateClaims(reply.asTree, inputs.value);
            if claims.Err? { return false; }
          }
          var taken := Finalize(job, reply.asTree, v);
          if !taken { return false; }
      }
      executions := executions[job := row.(state := if stage == Synthesis then Complete else Ready, error := None, attempts := 0,
                                           lease := None, leaseUntil := 0.0)];
      if !g.after {
        jobs, executions := beforeJobs, beforeRows;
        return false;
      }
      assert jobs == beforeJobs[job := jobs[job]];
      return true;
    }

    /** A draft is taken once; submitting it again as it was changes nothing. */
    method SavePart(job: JobId, id: nat, reply: DraftReply, v: Verdict) returns (taken: bool)
      requires job in jobs
      modifies this`jobs
      ensures taken <==> DraftTaken(old(jobs)[job], id, reply, v)
      ensures jobs == if taken then old(jobs)[job := WithDraft(old(jobs)[job], id, reply.claims)] else old(jobs)
      ensures taken ==>
        && v.current && v.quotesVerify && reply.Draft? && 1 <= |reply.claims| <= 8
        && PartById(old(jobs)[job].parts, id).Some? && (id in old(jobs)[job].drafts ==> old(jobs)[job].drafts[id] == reply.claims)
        && jobs[job] == old(jobs)[job].(drafts := old(jobs)[job].drafts[id := reply.claims])
      ensures !taken ==>
        || !v.current || !v.quotesVerify || reply.Malformed? || (forall i :: 0 <= i < |old(jobs)[job].parts| ==> old(jobs)[job].parts[i].id != id)
        || (PartById(old(jobs)[job].parts, id).Some? && !DraftAcceptable(PartById(old(jobs)[job].parts, id).value, reply.claims))
        || (id in old(jobs)[job].drafts && old(jobs)[job].drafts[id] != reply.claims)
        || (id !in old(jobs)[job].drafts && old(jobs)[job].record.Some?)
    {
      var row := jobs[job];
      var part := PartById(row.parts, id);
      if !v.current || part.None? || reply.Malformed? { return false; }
      var valid := ValidateDraft(part.value, reply.claims);
      if !valid || !v.quotesVerify { return false; }
      if id in row.drafts {
        assert jobs == jobs[job := row];
        return row.drafts[id] == reply.claims;
      }
      if row.record.Some? { return false; }
      jobs := jobs[job := row.(drafts := row.drafts[id := reply.claims])];
      return true;
    }

    /** A synthesis over all drafts becomes a proposal, and the job keeps its record. */
    method Finalize(job: JobId, synthesis: Tree.Reply, v: Verdict) returns (taken: bool)
      requires job in jobs
      modifies this`jobs
      ensures taken <==> SynthesisTaken(old(jobs)[job], synthesis, v)
      ensures taken <==>
        && v.current && v.quotesVerify && v.proposal.Some? && synthesis.Claims?
        && (forall p :: p in old(jobs)[job].drafts <==> exists i :: 0 <= i < |old(jobs)[job].parts| && old(jobs)[job].parts[i].id == p)
        && SynthesisAcceptable(old(jobs)[job], synthesis.claims) && |Evidence(old(jobs)[job], synthesis.claims)| <= 20
      ensures jobs == if taken then old(jobs)[job := old(jobs)[job].(record := v.proposal)] else old(jobs)
    {
      var row := jobs[job];
      AllDraftedExactly(row);
      if !v.current || !AllDrafted(row) || synthesis.Malformed? { return false; }
      var evidence := CollectEvidence(row, synthesis.claims);
      if evidence.None? || !v.quotesVerify || |evidence.value| > 20 || v.proposal.None? { return false; }
      jobs := jobs[job := row.(record := v.proposal)];
      return true;
    }

    /** Third transaction, when the call or the commit failed. */
    method Fail(job: JobId, lease: Lease, error: Code, retry: bool, now: real)
      requires job in executions
      modifies this`executions
      ensures executions == old(executions)[job := Failed(old(executions)[job], lease, error, retry, now)]
      ensures var before, after := old(executions)[job], executions[job];
        if before.state.Running? && before.lease == Some(lease) then
          && after.state == (if retry then Retry else Blocked) && after.error == Some(error) && after.lease.None? && after.leaseUntil == 0.0
          && after.step == before.step && after.attempts == before.attempts && after.model == before.model
          && (retry ==> after.nextAttempt == now + if before.attempts == 1 then 60.0 else 300.0)
        else after == before
    {
      var row := executions[job];
      if row.lease == Some(lease) && row.state.Running? {
        var delay := if row.attempts == 1 then 60.0 else 300.0;
        executions := executions[job := row.(state := if retry then Retry else Blocked, error := Some(error), lease := None,
                                             leaseUntil := 0.0, nextAttempt := if retry then now + delay else 0.0)];
      } else {
        assert executions == executions[job := row];
      }
    }
  }
}
