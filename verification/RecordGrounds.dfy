/**
 What the record of a job rests on, in any run of the queue: drafts quote the parts they were
 written for, and a synthesis refers to drafts, so every quote behind a record is in the plan.
 */
module RecordGrounds {
  import opened Wrappers
  import opened SourceText
  import opened SummaryJob
  import opened SummaryJobProperties
  import opened SummaryWorker
  import opened DispatchProtocol
  import Plan = SummaryPlan
  import Tree = ReductionTree

  // ---------------------------------------------------------------- what the drafts rest on

  /** Every citation of every draft quotes a unit of the part it was written for. */
  ghost predicate DraftsQuote(job: SummaryJob.Job) {
    forall p, i, j :: p in job.drafts && 0 <= i < |job.drafts[p]| && 0 <= j < |job.drafts[p][i].citations| ==>
      QuotesPart(job, p, job.drafts[p][i].citations[j])
  }

  ghost predicate QuotesPart(job: SummaryJob.Job, p: nat, c: Citation) {
    exists k, u, a, b ::
      && 0 <= k < |job.parts| && job.parts[k].id == p
      && 0 <= u < |job.parts[k].units| && job.parts[k].units[u].id == c.unit
      && 0 <= a <= b <= |job.parts[k].units[u].content| && job.parts[k].units[u].content[a..b] == c.quote
  }

  lemma TakenQuotes(job: SummaryJob.Job, id: nat, reply: DraftReply, v: Verdict)
    requires DraftsQuote(job) && DraftTaken(job, id, reply, v)
    ensures DraftsQuote(WithDraft(job, id, reply.claims))
  {
    hide Accept, RawLength, PartById;
    var after, part := WithDraft(job, id, reply.claims), PartById(job.parts, id).value;
    var k :| 0 <= k < |job.parts| && job.parts[k] == part;
    forall p, i, j | p in after.drafts && 0 <= i < |after.drafts[p]| && 0 <= j < |after.drafts[p][i].citations|
      ensures QuotesPart(after, p, after.drafts[p][i].citations[j])
    {
      var c := after.drafts[p][i].citations[j];
      if p == id && id !in job.drafts {
        assert ClaimFits(part, reply.claims[i]) && CitesPart(part, c);
        CitedPart(after, k, c);
      } else {
        assert QuotesPart(job, p, c);
        SamePlanQuotes(job, after, p, c);
      }
    }
  }

  lemma CitedPart(job: SummaryJob.Job, k: nat, c: Citation)
    requires k < |job.parts| && CitesPart(job.parts[k], c)
    ensures QuotesPart(job, job.parts[k].id, c)
  {
    var u :| 0 <= u < |job.parts[k].units| && job.parts[k].units[u].id == c.unit && Contains(job.parts[k].units[u].content, c.quote);
    var a, b :| 0 <= a <= b <= |job.parts[k].units[u].content| && job.parts[k].units[u].content[a..b] == c.quote;
  }

  lemma SamePlanQuotes(job: SummaryJob.Job, after: SummaryJob.Job, p: nat, c: Citation)
    requires QuotesPart(job, p, c) && after.parts == job.parts
    ensures QuotesPart(after, p, c)
  {
    var k, u, a, b :|
      && 0 <= k < |job.parts| && job.parts[k].id == p
      && 0 <= u < |job.parts[k].units| && job.parts[k].units[u].id == c.unit
      && 0 <= a <= b <= |job.parts[k].units[u].content| && job.parts[k].units[u].content[a..b] == c.quote;
    assert after.parts[k].units[u].content[a..b] == c.quote;
  }

  lemma SameDraftsQuote(job: SummaryJob.Job, after: SummaryJob.Job)
    requires DraftsQuote(job) && after.parts == job.parts && after.drafts == job.drafts
    ensures DraftsQuote(after)
  {
    hide QuotesPart;
    forall p, i, j | p in after.drafts && 0 <= i < |after.drafts[p]| && 0 <= j < |after.drafts[p][i].citations|
      ensures QuotesPart(after, p, after.drafts[p][i].citations[j])
    {
      assert QuotesPart(job, p, job.drafts[p][i].citations[j]);
      SamePlanQuotes(job, after, p, job.drafts[p][i].citations[j]);
    }
  }

  lemma AppliedQuotes(job: SummaryJob.Job, stage: Stage, inputs: Option<seq<Tree.Node>>, reply: ModelReply, v: Verdict)
    requires DraftsQuote(job) && Apply(job, stage, inputs, reply, v).Some?
    ensures DraftsQuote(Apply(job, stage, inputs, reply, v).value)
  {
    hide DraftsQuote, DraftAcceptable, SynthesisAcceptable, Evidence, AllDrafted, Tree.Acceptable;
    match stage
    case PartStage(part) => TakenQuotes(job, part, reply.asDraft, v);
    case _ => SameDraftsQuote(job, Apply(job, stage, inputs, reply, v).value);
  }

  /** The units of a plan are numbered from 1 on, and its drafts quote them. */
  ghost predicate Grounded(job: SummaryJob.Job) {
    Plan.BoundedUnits(Plan.Flatten(job.parts), 0) && DraftsQuote(job)
  }

  lemma StepGrounded(s: System, a: Action)
    requires forall id :: id in s.jobs ==> Grounded(s.jobs[id])
    ensures forall id :: id in Perform(s, a).jobs ==> Grounded(Perform(s, a).jobs[id])
  {
    hide Apply, BeginStep, Committable, DraftTaken, SynthesisTaken, DraftsQuote, Plan.BoundedUnits, Plan.Flatten;
    match a
    case Prepare(id, parts) => NothingDrafted(SummaryJob.Job(parts, map[], map[], None));
    case Commit(lease, reply, g, now, v) =>
      if Perform(s, a) != s {
        var at := s.attempts[lease];
        hide Committable;
        CommittedApplies(s, a);
        AppliedQuotes(s.jobs[at.job], at.stage, at.inputs, reply, v);
        ApplyExtends(s.jobs[at.job], at.stage, at.inputs, reply, v);
      }
    case OperatorDraft(id, part, draft, v) =>
      if id in s.jobs && DraftTaken(s.jobs[id], part, draft, v) { TakenQuotes(s.jobs[id], part, draft, v); }
    case OperatorFinalize(id, synthesis, v) =>
      if id in s.jobs { SameDraftsQuote(s.jobs[id], s.jobs[id].(record := v.proposal)); }
    case _ =>
  }

  lemma NothingDrafted(job: SummaryJob.Job)
    requires job.drafts == map[]
    ensures DraftsQuote(job)
  {
  }

  lemma CommittedApplies(s: System, a: Action)
    requires a.Commit? && Perform(s, a) != s
    ensures a.lease in s.attempts && s.attempts[a.lease].job in s.jobs
    ensures var at := s.attempts[a.lease];
      && Apply(s.jobs[at.job], at.stage, at.inputs, a.reply, a.v).Some?
      && Perform(s, a).jobs == s.jobs[at.job := Apply(s.jobs[at.job], at.stage, at.inputs, a.reply, a.v).value]
  {
    hide Apply;
  }

  lemma {:induction false} RunGrounded(actions: seq<Action>)
    ensures forall id :: id in Run(Start, actions).jobs ==> Grounded(Run(Start, actions).jobs[id])
  {
    hide Perform, Grounded;
    if actions != [] {
      RunGrounded(actions[..|actions| - 1]);
      StepGrounded(Run(Start, actions[..|actions| - 1]), actions[|actions| - 1]);
    }
  }

  lemma {:induction false} LocatorAt(units: seq<Plan.Unit>, i: nat)
    requires Plan.BoundedUnits(units, 0) && i < |units|
    ensures LocatorAmong(units, units[i].id) == units[i].locator
  {
    if i < |units| - 1 { LocatorAt(units[..|units| - 1], i); }
  }

  lemma {:induction false} UnitInPlan(parts: seq<Plan.Part>, k: nat, u: nat) returns (at: nat)
    requires k < |parts| && u < |parts[k].units|
    ensures at < |Plan.Flatten(parts)| && Plan.Flatten(parts)[at] == parts[k].units[u]
  {
    var before := Plan.Flatten(parts[..|parts| - 1]);
    if k == |parts| - 1 {
      at := |before| + u;
    } else {
      at := UnitInPlan(parts[..|parts| - 1], k, u);
    }
  }

  /** The quote stands in the plan, in a unit that was cut from the place it is cited at. */
  ghost predicate InPlan(job: SummaryJob.Job, q: Quoting) {
    exists i, a, b ::
      && 0 <= i < |Plan.Flatten(job.parts)| && Plan.Flatten(job.parts)[i].locator == q.locator
      && 0 <= a <= b <= |Plan.Flatten(job.parts)[i].content| && Plan.Flatten(job.parts)[i].content[a..b] == q.quote
  }

  lemma QuotedInPlan(job: SummaryJob.Job, p: nat, c: Citation)
    requires Plan.BoundedUnits(Plan.Flatten(job.parts), 0) && QuotesPart(job, p, c)
    ensures InPlan(job, QuotingOf(job, c))
  {
    hide LocatorAmong, Plan.Flatten, Plan.BoundedUnits;
    var k, u, a, b :|
      && 0 <= k < |job.parts| && job.parts[k].id == p
      && 0 <= u < |job.parts[k].units| && job.parts[k].units[u].id == c.unit
      && 0 <= a <= b <= |job.parts[k].units[u].content| && job.parts[k].units[u].content[a..b] == c.quote;
    var at := UnitInPlan(job.parts, k, u);
    LocatorAt(Plan.Flatten(job.parts), at);
    assert Plan.Flatten(job.parts)[at].content[a..b] == c.quote;
  }

  lemma EvidenceInPlan(job: SummaryJob.Job, claims: seq<Tree.Claim>, q: Quoting)
    requires Grounded(job) && q in Evidence(job, claims)
    ensures InPlan(job, q)
  {
    hide InPlan, QuotingOf, QuotesPart, Plan.Flatten, Plan.BoundedUnits;
    var i, j, k :| 0 <= i < |claims| && 0 <= j < |claims[i].references| && ReferenceFound(job, claims[i].references[j])
                   && 0 <= k < |job.drafts[claims[i].references[j].part][claims[i].references[j].claim].citations|
                   && q == QuotingOf(job, job.drafts[claims[i].references[j].part][claims[i].references[j].claim].citations[k]);
    var ref := claims[i].references[j];
    assert QuotesPart(job, ref.part, job.drafts[ref.part][ref.claim].citations[k]);
    QuotedInPlan(job, ref.part, job.drafts[ref.part][ref.claim].citations[k]);
  }

  lemma RecordComesFrom(s: System, a: Action, id: JobId) returns (claims: seq<Tree.Claim>)
    requires id in s.jobs && s.jobs[id].record.None? && id in Perform(s, a).jobs && Perform(s, a).jobs[id].record.Some?
    ensures (a.Commit? && a.reply.asTree == Tree.Claims(claims)) || (a.OperatorFinalize? && a.synthesis == Tree.Claims(claims))
    ensures AllDrafted(s.jobs[id]) && SynthesisAcceptable(s.jobs[id], claims) && |Evidence(s.jobs[id], claims)| <= 20
  {
    hide BeginStep, SynthesisAcceptable, Evidence, AllDrafted, DraftTaken, Tree.Acceptable, ReductionTaken;
    if a.Commit? {
      CommittedApplies(s, a);
      claims := a.reply.asTree.claims;
    } else {
      claims := a.synthesis.claims;
    }
  }

  lemma AllPartsDrafted(job: SummaryJob.Job)
    requires AllDrafted(job)
    ensures forall i :: 0 <= i < |job.parts| ==> job.parts[i].id in job.drafts
  {
    forall i | 0 <= i < |job.parts| ensures job.parts[i].id in job.drafts {
      assert PartIds(job)[i] == job.parts[i].id;
      assert job.parts[i].id in Tree.Elements(PartIds(job));
    }
  }

  /** What the planning of a document gives is what a job starts from. */
  lemma PreparedIsNumbered(parts: seq<Plan.Part>, passages: seq<Plan.Passage>, limit: nat)
    requires Plan.PlanOf(parts, passages, limit) && parts != []
    ensures Numbered(parts)
  {
    Plan.AllUnitsBounded(Plan.Kept(passages));
  }

  /**
   In every run, whenever a job gets its record, a synthesis over the drafts of all its parts stands
   behind it, every claim of which refers to one to four claims of the drafts; the quotes that they
   rest on are at most twenty, and each of them stands in the plan at the place it is cited at.
   */
  lemma {:induction false} RecordRestsOnPlan(actions: seq<Action>, a: Action, id: JobId) returns (claims: seq<Tree.Claim>)
    requires id in Run(Start, actions).jobs && Run(Start, actions).jobs[id].record.None?
    requires id in Perform(Run(Start, actions), a).jobs && Perform(Run(Start, actions), a).jobs[id].record.Some?
    ensures var job := Run(Start, actions).jobs[id];
      && ((a.Commit? && a.reply.asTree == Tree.Claims(claims)) || (a.OperatorFinalize? && a.synthesis == Tree.Claims(claims)))
      && (forall i :: 0 <= i < |job.parts| ==> job.parts[i].id in job.drafts)
      && 1 <= |claims| <= 10
      && (forall i :: 0 <= i < |claims| ==> 1 <= |claims[i].references| <= 4)
      && (forall i, j :: 0 <= i < |claims| && 0 <= j < |claims[i].references| ==>
            claims[i].references[j].part in job.drafts && 0 <= claims[i].references[j].claim < |job.drafts[claims[i].references[j].part]|)
      && |Evidence(job, claims)| <= 20 && forall q :: q in Evidence(job, claims) ==> InPlan(job, q)
  {
    hide Run, InPlan, Evidence;
    var s := Run(Start, actions);
    RunGrounded(actions);
    claims := RecordComesFrom(s, a, id);
    var job := s.jobs[id];
    AllPartsDrafted(job);
    forall q | q in Evidence(job, claims) ensures InPlan(job, q) {
      EvidenceInPlan(job, claims, q);
    }
  }
}
