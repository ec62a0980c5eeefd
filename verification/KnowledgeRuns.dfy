/**
 Runs of one partition: any sequence of the catalogue's and the derived-knowledge operations,
 at any times. Beside the tables a run keeps two histories that the program does not store:
 the content each document was last indexed with, and the actions taken on each record.
 */
module KnowledgeRuns {
  import opened Wrappers
  import opened SourceText
  import opened KnowledgeStore

  datatype Op =
    | Observe(entry: Entry, scan: string, maxBytes: nat)
    | Index(key: Key, expected: Fingerprint, sha: string, chunks: seq<Chunk>, screened: bool, structured: Option<Structured>)
    | WithdrawSource(key: Key, reason: Reason)
    | CheckSource(key: Key, expected: Fingerprint, expectedSha: Option<string>, expectedState: DocState, result: CheckResult, maxBytes: nat)
    | Reclassify(key: Key, state: DocState, reason: Reason)
    | Propose(statement: Statement, transportKey: string, id: RecordId)
    | Review(id: RecordId, revision: nat, decision: Decision, authorized: bool)
    | Correct(id: RecordId, revision: nat, content: Text, replacement: RecordId, citations: seq<Citation>, authorized: bool)

  datatype Step = Step(op: Op, now: Time)

  predicate Indexes(t: Tables, op: Op)
    requires op.Index?
  {
    Indexable(t.documents, op.key, op.expected) && ChunksAcceptable(op.chunks, op.screened)
  }

  predicate Checks(t: Tables, op: Op)
    requires op.CheckSource?
  {
    op.key in t.documents && CheckAcceptable(op.result, op.maxBytes)
    && t.documents[op.key].fingerprint == op.expected && t.documents[op.key].sha == op.expectedSha
    && t.documents[op.key].state == op.expectedState
  }

  /** The tables after one operation; an operation that raises leaves them alone. */
  function Perform(t: Tables, s: Step): Tables {
    match s.op
    case Observe(e, scan, maxBytes) => Observed(t, e, scan, s.now, maxBytes)
    case Index(key, _, sha, chunks, _, structured) => if Indexes(t, s.op) then Reindexed(t, key, sha, chunks, structured, s.now) else t
    case WithdrawSource(key, reason) => Withdraw(t, key, reason)
    case CheckSource(key, _, _, _, result, _) => if Checks(t, s.op) then SourceChecked(t, key, result, s.now) else t
    case Reclassify(key, state, reason) => Reclassified(t, key, state, reason)
    case Propose(statement, transportKey, id) => AfterProposal(t, statement, transportKey, id, s.now)
    case Review(id, revision, decision, authorized) => AfterReview(t, id, revision, decision, authorized, s.now)
    case Correct(id, revision, content, replacement, citations, authorized) =>
      AfterCorrection(t, id, revision, content, replacement, citations, authorized, s.now)
  }

  function Run(t: Tables, steps: seq<Step>): Tables {
    if steps == [] then t else Perform(Run(t, steps[..|steps| - 1]), steps[|steps| - 1])
  }

  lemma {:induction false} RunOn(steps: seq<Step>, s: Step)
    ensures Run(Empty, steps + [s]) == Perform(Run(Empty, steps), s)
  {
    hide Perform;
    assert (steps + [s])[..|steps|] == steps;
  }

  /** The chunk list each document was last indexed with. */
  function LastIndexed(steps: seq<Step>): map<Key, seq<Chunk>> {
    if steps == [] then map[]
    else
      var before, op := LastIndexed(steps[..|steps| - 1]), steps[|steps| - 1].op;
      if op.Index? && Indexes(Run(Empty, steps[..|steps| - 1]), op) then before[op.key := op.chunks] else before
  }

  /** Only an active record, at the revision the reviewer saw, whose every citation still verifies, is reviewed. */
  lemma ReviewAdmits(t: Tables, id: RecordId, revision: nat, authorized: bool, now: Time)
    requires ReviewError(t, id, revision, authorized, now).None?
    ensures authorized && id in t.records && t.records[id].revision == revision && Active(t.records[id].status) && StillCited(t, id, now)
  {
  }

  lemma CorrectionAdmits(t: Tables, id: RecordId, revision: nat, content: Text, replacement: RecordId,
                         authorized: bool, now: Time)
    requires CorrectionError(t, id, revision, content, replacement, authorized, now).None?
    ensures authorized && id in t.records && t.records[id].revision == revision && Active(t.records[id].status) && StillCited(t, id, now)
    ensures replacement !in t.records && !KeyTaken(t.records, CorrectionKey(id, revision))
    ensures Accept(content, 8000).Some? && Accept(content, 8000).value != t.records[id].content
    ensures CitedVersions(t.dependencies, id) != {}
  {
    hide StillCited, CitedVersions, KeyTaken, CorrectionKey, Accept;
    ReviewAdmits(t, id, revision, authorized, now);
  }
}
