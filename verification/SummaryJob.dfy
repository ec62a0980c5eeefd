/**
 One summary job as it stands in its durable rows: the plan, the drafts of its parts,
 the saved reductions and, at the end, the proposed record. Whether the source is still
 current, whether cited quotes still verify and what the record store answers to the
 proposal are decided by the catalogue; here they are arguments.
 */
module SummaryJob {
  import opened Wrappers
  import opened SourceText
  import Plan = SummaryPlan
  import Tree = ReductionTree

  datatype Citation = Citation(unit: nat, quote: string)
  datatype DraftClaim = DraftClaim(text: Text, citations: seq<Citation>)
  // A quote by the place it is cited at; the blocks of one passage share their place.
  datatype Quoting = Quoting(locator: string, quote: string)
  datatype DraftReply = Malformed | Draft(claims: seq<DraftClaim>)

  datatype Job = Job(parts: seq<Plan.Part>, drafts: map<nat, seq<DraftClaim>>, reductions: Tree.Reductions, record: Option<nat>)

  // What the catalogue says during one transaction.
  datatype Verdict = Verdict(current: bool, quotesVerify: bool, proposal: Option<nat>)

  datatype Error =
    | SourceUnavailable | PartUnavailable | InvalidClaims | PartTooLarge | InvalidText | InvalidCitations
    | QuoteOutsidePart | CitationRejected | AlreadySubmitted | AlreadyFinalized
    | PartsIncomplete | InvalidReferences | InvalidReference | TooManyCitations | ProposalRefused
    | Reduction(error: Tree.Error) | AlreadyReduced

  datatype Stage = PartStage(part: nat) | ReduceStage(node: Tree.NodeId) | Synthesis
  datatype Task = Finished | Task(stage: Stage, inputs: Option<seq<Tree.Node>>)

  function PartIds(job: Job): seq<nat> {
    seq(|job.parts|, i requires 0 <= i < |job.parts| => job.parts[i].id)
  }

  function Texts(claims: seq<DraftClaim>): seq<Text> {
    seq(|claims|, i requires 0 <= i < |claims| => claims[i].text)
  }

  function DraftTexts(drafts: map<nat, seq<DraftClaim>>): map<nat, seq<Text>> {
    map p | p in drafts :: Texts(drafts[p])
  }

  /** What a level of the tree is given of a draft: its texts, in order. */
  lemma DraftTextsAre(drafts: map<nat, seq<DraftClaim>>, p: nat)
    ensures p in DraftTexts(drafts) <==> p in drafts
    ensures p in drafts ==>
      |DraftTexts(drafts)[p]| == |drafts[p]| && forall i :: 0 <= i < |drafts[p]| ==> DraftTexts(drafts)[p][i] == drafts[p][i].text
  {
  }

  function FirstUndrafted(parts: seq<Plan.Part>, drafts: map<nat, seq<DraftClaim>>): (r: Option<nat>)
    ensures r.Some? ==> r.value !in drafts && exists i :: 0 <= i < |parts| && parts[i].id == r.value
    ensures r.None? <==> forall i :: 0 <= i < |parts| ==> parts[i].id in drafts
  {
    if parts == [] then None
    else if parts[0].id !in drafts then Some(parts[0].id)
    else
      var r := FirstUndrafted(parts[1..], drafts);
      assert parts == [parts[0]] + parts[1..];
      r
  }

  /** The work that the durable rows ask for next. */
  function NextTask(job: Job): Result<Task, Error> {
    if job.record.Some? then Ok(Finished)
    else
      var part := FirstUndrafted(job.parts, job.drafts);
      if part.Some? then Ok(Task(PartStage(part.value), None))
      else if |job.parts| <= Tree.FAN_IN then Ok(Task(Synthesis, None))
      else
        match Tree.Next(PartIds(job), DraftTexts(job.drafts), job.reductions)
        case Broken(e) => Err(Reduction(e))
        case Missing(node, group) => Ok(Task(ReduceStage(node), Some(group)))
        case Nodes(nodes) => Ok(Task(Synthesis, Some(nodes)))
  }

  // ---------------------------------------------------------------- save_part

  function RawLength(claims: seq<DraftClaim>): nat {
    if claims == [] then 0 else RawLength(claims[..|claims| - 1]) + |claims[|claims| - 1].text.body|
  }

  predicate Contains(content: string, quote: string) {
    exists i, j :: 0 <= i <= j <= |content| && content[i..j] == quote
  }

  predicate CitesPart(part: Plan.Part, c: Citation) {
    !Blank(c.quote) && exists i :: 0 <= i < |part.units| && part.units[i].id == c.unit && Contains(part.units[i].content, c.quote)
  }

  predicate DraftAcceptable(part: Plan.Part, claims: seq<DraftClaim>) {
    && 1 <= |claims| <= 8
    && RawLength(claims) <= 8000
    && forall i :: 0 <= i < |claims| ==> ClaimFits(part, claims[i])
  }

  predicate ClaimFits(part: Plan.Part, claim: DraftClaim) {
    && Accept(claim.text, 1600).Some?
    && 1 <= |claim.citations| <= 3
    && forall j :: 0 <= j < |claim.citations| ==> CitesPart(part, claim.citations[j])
  }

  /** The length of a draft is that of its texts as they were sent. */
  lemma {:induction false} RawLengthAdds(a: seq<DraftClaim>, b: seq<DraftClaim>)
    ensures RawLength(a + b) == RawLength(a) + RawLength(b)
    ensures |b| == 1 ==> RawLength(b) == |b[0].text.body|
  {
    if b == [] {
      assert a + b == a;
    } else {
      RawLengthAdds(a, b[..|b| - 1]);
      assert (a + b)[..|a + b| - 1] == a + b[..|b| - 1];
    }
  }

  /** The quote is not blank and stands, letter for letter, in a unit of the part with that number. */
  ghost predicate QuotesUnit(part: Plan.Part, c: Citation) {
    && (exists k :: 0 <= k < |c.quote| && !IsSpace(c.quote[k]))
    && exists i, a, b :: 0 <= i < |part.units| && part.units[i].id == c.unit
                         && 0 <= a <= b <= |part.units[i].content| && part.units[i].content[a..b] == c.quote
  }

  lemma CitesExactly(part: Plan.Part, c: Citation)
    ensures CitesPart(part, c) <==> QuotesUnit(part, c)
  {
    if i, a, b :| 0 <= i < |part.units| && part.units[i].id == c.unit
                  && 0 <= a <= b <= |part.units[i].content| && part.units[i].content[a..b] == c.quote {
      assert Contains(part.units[i].content, c.quote);
    }
  }

  /** A claim of a draft that is taken: an acceptable text, and one to three such quotes. */
  ghost predicate Quotes(part: Plan.Part, claim: DraftClaim) {
    && Accept(claim.text, 1600).Some? && 1 <= |claim.citations| <= 3
    && forall j :: 0 <= j < |claim.citations| ==> QuotesUnit(part, claim.citations[j])
  }

  lemma FitsExactly(part: Plan.Part, claim: DraftClaim)
    ensures ClaimFits(part, claim) <==> Quotes(part, claim)
  {
    hide Accept, CitesPart, QuotesUnit;
    forall j | 0 <= j < |claim.citations| ensures CitesPart(part, claim.citations[j]) <==> QuotesUnit(part, claim.citations[j]) {
      CitesExactly(part, claim.citations[j]);
    }
  }

  lemma {:induction false} DraftExactly(part: Plan.Part, claims: seq<DraftClaim>)
    ensures DraftAcceptable(part, claims) <==>
      1 <= |claims| <= 8 && RawLength(claims) <= 8000 && forall i :: 0 <= i < |claims| ==> Quotes(part, claims[i])
  {
    hide ClaimFits, Quotes;
    forall i | 0 <= i < |claims| ensures ClaimFits(part, claims[i]) <==> Quotes(part, claims[i]) { FitsExactly(part, claims[i]); }
  }

  lemma NoLength()
    ensures RawLength([]) == 0
  {
  }

  lemma {:induction false} OneMoreLength(claims: seq<DraftClaim>, n: nat)
    requires n < |claims|
    ensures RawLength(claims[..n + 1]) == RawLength(claims[..n]) + |claims[n].text.body|
  {
    assert claims[..n + 1][..n] == claims[..n];
  }

  /** The checks of a submitted draft, claim by claim and citation by citation. */
  method ValidateDraft(part: Plan.Part, claims: seq<DraftClaim>) returns (ok: bool)
    ensures ok <==> DraftAcceptable(part, claims)
    ensures ok <==>
      && 1 <= |claims| <= 8 && RawLength(claims) <= 8000
      && forall i :: 0 <= i < |claims| ==> Quotes(part, claims[i])
  {
    DraftExactly(part, claims);
    hide CitesPart, Quotes, Accept, RawLength;
    NoLength();
    if !(1 <= |claims| <= 8) { return false; }
    var total := 0;
    assert claims[..0] == [];
    for n := 0 to |claims|
      invariant total == RawLength(claims[..n])
    {
      OneMoreLength(claims, n);
      total := total + |claims[n].text.body|;
    }
    assert claims[..|claims|] == claims;
    if total > 8000 { return false; }
    for n := 0 to |claims|
      invariant forall i :: 0 <= i < n ==> ClaimFits(part, claims[i])
    {
      if Accept(claims[n].text, 1600).None? || !(1 <= |claims[n].citations| <= 3) { return false; }
      for m := 0 to |claims[n].citations|
        invariant forall j :: 0 <= j < m ==> CitesPart(part, claims[n].citations[j])
      {
        if !CitesPart(part, claims[n].citations[m]) { return false; }
      }
    }
    return true;
  }

  function PartById(parts: seq<Plan.Part>, id: nat): (r: Option<Plan.Part>)
    ensures r.Some? ==> r.value.id == id && r.value in parts
    ensures r.None? ==> forall i :: 0 <= i < |parts| ==> parts[i].id != id
  {
    if parts == [] then None else if parts[0].id == id then Some(parts[0]) else PartById(parts[1..], id)
  }

  /** Whether a draft is taken, and what the job is afterwards. */
  predicate DraftTaken(job: Job, id: nat, reply: DraftReply, v: Verdict) {
    var part := PartById(job.parts, id);
    && v.current && part.Some? && reply.Draft? && DraftAcceptable(part.value, reply.claims) && v.quotesVerify
    && (if id in job.drafts then job.drafts[id] == reply.claims else job.record.None?)
  }

  function WithDraft(job: Job, id: nat, claims: seq<DraftClaim>): Job {
    if id in job.drafts then job else job.(drafts := job.drafts[id := claims])
  }

  // ---------------------------------------------------------------- finalize

  predicate SynthesisAcceptable(job: Job, claims: seq<Tree.Claim>) {
    && 1 <= |claims| <= 10
    && forall i :: 0 <= i < |claims| ==> SynthesisClaimFits(job, claims[i])
  }

  predicate SynthesisClaimFits(job: Job, claim: Tree.Claim) {
    && Accept(claim.text, 1600).Some?
    && 1 <= |claim.references| <= 4
    && forall j :: 0 <= j < |claim.references| ==> ReferenceFound(job, claim.references[j])
  }

  predicate ReferenceFound(job: Job, ref: Tree.Ref) {
    ref.part in job.drafts && 0 <= ref.claim < |job.drafts[ref.part]|
  }

  function LocatorAmong(units: seq<Plan.Unit>, id: nat): string {
    if units == [] then ""
    else if units[|units| - 1].id == id then units[|units| - 1].locator
    else LocatorAmong(units[..|units| - 1], id)
  }

  function QuotingOf(job: Job, c: Citation): Quoting {
    Quoting(LocatorAmong(Plan.Flatten(job.parts), c.unit), c.quote)
  }

  /** The distinct quotes, with their places, that stand behind a synthesis. */
  function Evidence(job: Job, claims: seq<Tree.Claim>): set<Quoting> {
    set i, j, k | 0 <= i < |claims| && 0 <= j < |claims[i].references| && ReferenceFound(job, claims[i].references[j])
                  && 0 <= k < |job.drafts[claims[i].references[j].part][claims[i].references[j].claim].citations|
      :: QuotingOf(job, job.drafts[claims[i].references[j].part][claims[i].references[j].claim].citations[k])
  }

  function EvidenceOf(job: Job, refs: seq<Tree.Ref>): set<Quoting> {
    set j, k | 0 <= j < |refs| && ReferenceFound(job, refs[j]) && 0 <= k < |job.drafts[refs[j].part][refs[j].claim].citations|
      :: QuotingOf(job, job.drafts[refs[j].part][refs[j].claim].citations[k])
  }

  /** A quote, at its place in the plan, of a draft claim that the synthesis refers to. */
  ghost predicate Behind(job: Job, claims: seq<Tree.Claim>, q: Quoting) {
    exists i, j, k :: 0 <= i < |claims| && 0 <= j < |claims[i].references| && ReferenceFound(job, claims[i].references[j])
                      && 0 <= k < |job.drafts[claims[i].references[j].part][claims[i].references[j].claim].citations|
                      && var c := job.drafts[claims[i].references[j].part][claims[i].references[j].claim].citations[k];
                      q == Quoting(LocatorAmong(Plan.Flatten(job.parts), c.unit), c.quote)
  }

  lemma EvidenceExactly(job: Job, claims: seq<Tree.Claim>, q: Quoting)
    ensures q in Evidence(job, claims) <==> Behind(job, claims, q)
  {
  }

  /** The place of a unit, where units are numbered from 1 on. */
  lemma {:induction false} LocatorByNumber(units: seq<Plan.Unit>, id: nat)
    requires 1 <= id <= |units| && forall i :: 0 <= i < |units| ==> units[i].id == i + 1
    ensures LocatorAmong(units, id) == units[id - 1].locator
  {
    if units[|units| - 1].id != id { LocatorByNumber(units[..|units| - 1], id); }
  }

  /** The quotes behind a synthesis, gathered reference by reference; nothing when a claim or a reference is not in order. */
  method CollectEvidence(job: Job, claims: seq<Tree.Claim>) returns (r: Option<set<Quoting>>)
    ensures r.Some? <==> SynthesisAcceptable(job, claims)
    ensures r.Some? ==> r.value == Evidence(job, claims)
    ensures r.Some? <==>
      && 1 <= |claims| <= 10
      && forall i :: 0 <= i < |claims| ==>
        && Accept(claims[i].text, 1600).Some? && 1 <= |claims[i].references| <= 4
        && forall j :: 0 <= j < |claims[i].references| ==>
          var ref := claims[i].references[j]; ref.part in job.drafts && 0 <= ref.claim < |job.drafts[ref.part]|
    ensures r.Some? ==> forall q :: q in r.value <==> Behind(job, claims, q)
  {
    forall q ensures q in Evidence(job, claims) <==> Behind(job, claims, q) { EvidenceExactly(job, claims, q); }
    hide Behind;
    if !(1 <= |claims| <= 10) { return None; }
    hide QuotingOf;
    var evidence: set<Quoting> := {};
    for n := 0 to |claims|
      invariant forall i :: 0 <= i < n ==> SynthesisClaimFits(job, claims[i])
      invariant evidence == Evidence(job, claims[..n])
    {
      var refs := claims[n].references;
      if Accept(claims[n].text, 1600).None? || !(1 <= |refs| <= 4) { return None; }
      var before := evidence;
      for m := 0 to |refs|
        invariant forall j :: 0 <= j < m ==> ReferenceFound(job, refs[j])
        invariant evidence == before + EvidenceOf(job, refs[..m])
      {
        if !ReferenceFound(job, refs[m]) { return None; }
        EvidenceOneMore(job, refs, m);
        var cited := job.drafts[refs[m].part][refs[m].claim].citations;
        evidence := evidence + set c | c in cited :: QuotingOf(job, c);
      }
      assert refs[..|refs|] == refs;
      EvidenceOfClaims(job, claims, n);
    }
    assert claims[..|claims|] == claims;
    return Some(evidence);
  }

  lemma EvidenceOneMore(job: Job, refs: seq<Tree.Ref>, m: nat)
    requires m < |refs| && ReferenceFound(job, refs[m])
    ensures EvidenceOf(job, refs[..m + 1])
            == EvidenceOf(job, refs[..m]) + set c | c in job.drafts[refs[m].part][refs[m].claim].citations :: QuotingOf(job, c)
  {
    hide QuotingOf;
    var cited := job.drafts[refs[m].part][refs[m].claim].citations;
    forall c | c in cited ensures QuotingOf(job, c) in EvidenceOf(job, refs[..m + 1]) {
      assert refs[..m + 1][m] == refs[m];
    }
    forall c | c in EvidenceOf(job, refs[..m]) ensures c in EvidenceOf(job, refs[..m + 1]) {
      var j, k :| 0 <= j < m && ReferenceFound(job, refs[..m][j]) && 0 <= k < |job.drafts[refs[..m][j].part][refs[..m][j].claim].citations|
                  && c == QuotingOf(job, job.drafts[refs[..m][j].part][refs[..m][j].claim].citations[k]);
      assert refs[..m + 1][j] == refs[j];
    }
  }

  lemma EvidenceOfClaims(job: Job, claims: seq<Tree.Claim>, n: nat)
    requires n < |claims|
    ensures Evidence(job, claims[..n + 1]) == Evidence(job, claims[..n]) + EvidenceOf(job, claims[n].references)
  {
    hide QuotingOf;
    var more, before, refs := claims[..n + 1], claims[..n], claims[n].references;
    forall c | c in EvidenceOf(job, refs) ensures c in Evidence(job, more) {
      var j, k :| 0 <= j < |refs| && ReferenceFound(job, refs[j]) && 0 <= k < |job.drafts[refs[j].part][refs[j].claim].citations|
                  && c == QuotingOf(job, job.drafts[refs[j].part][refs[j].claim].citations[k]);
      assert more[n].references[j] == refs[j];
    }
    forall c | c in Evidence(job, before) ensures c in Evidence(job, more) {
      var i, j, k :| 0 <= i < |before| && 0 <= j < |before[i].references| && ReferenceFound(job, before[i].references[j])
                     && 0 <= k < |job.drafts[before[i].references[j].part][before[i].references[j].claim].citations|
                     && c == QuotingOf(job, job.drafts[before[i].references[j].part][before[i].references[j].claim].citations[k]);
      assert more[i] == before[i];
    }
  }

  predicate AllDrafted(job: Job) {
    job.drafts.Keys == Tree.Elements(PartIds(job))
  }

  lemma AllDraftedExactly(job: Job)
    ensures AllDrafted(job) <==> forall p :: p in job.drafts <==> exists i :: 0 <= i < |job.parts| && job.parts[i].id == p
  {
    forall p ensures p in Tree.Elements(PartIds(job)) <==> exists i :: 0 <= i < |job.parts| && job.parts[i].id == p {
      if i :| 0 <= i < |job.parts| && job.parts[i].id == p { assert PartIds(job)[i] == p; }
      if p in Tree.Elements(PartIds(job)) {
        var i :| 0 <= i < |PartIds(job)| && PartIds(job)[i] == p;
        assert job.parts[i].id == p;
      }
    }
  }

  predicate SynthesisTaken(job: Job, reply: Tree.Reply, v: Verdict) {
    && v.current && AllDrafted(job) && reply.Claims? && SynthesisAcceptable(job, reply.claims)
    && |Evidence(job, reply.claims)| <= 20 && v.quotesVerify && v.proposal.Some?
  }

  // ---------------------------------------------------------------- reduce

  predicate ReductionTaken(job: Job, node: Tree.NodeId, inputs: seq<Tree.Node>, reply: Tree.Reply, v: Verdict) {
    v.current && reply.Claims? && Tree.Acceptable(reply.claims, inputs) && node !in job.reductions
  }

  function WithReduction(job: Job, node: Tree.NodeId, inputs: seq<Tree.Node>, claims: seq<Tree.Claim>): Job {
    job.(reductions := job.reductions[node := Tree.Reduction(inputs, claims)])
  }
}
