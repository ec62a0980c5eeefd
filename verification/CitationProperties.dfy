/**
 Every record in force is backed by what is indexed now: after any run each proposed or
 confirmed record cites only documents indexed at the cited digest, with the quote still
 where it was cited.
 */
module CitationProperties {
  import opened Wrappers
  import opened SourceText
  import opened KnowledgeStore
  import opened KnowledgeRuns
  import RecordEffects
  import IndexProperties
  import RecordProperties

  predicate Supported(documents: map<Key, Document>, chunks: map<RowId, ChunkRow>, payloads: map<Key, Payload>,
                      d: Dependency) {
    d.document in documents && documents[d.document].state.Indexed? && documents[d.document].sha == Some(d.sha)
    && Quoted(chunks, payloads, d.document, d.sha, d.locator, d.quote)
  }

  predicate InForce(records: map<RecordId, Record>, d: Dependency) {
    d.record in records && Active(records[d.record].status)
  }

  ghost predicate Live(documents: map<Key, Document>, t: Tables) {
    forall d :: d in t.dependencies && InForce(t.records, d) ==> Supported(documents, t.chunks, t.payloads, d)
  }

  // ---------------------------------------------------------------- content changes

  /** Quotes of one document depend on its own rows only. */
  lemma QuotedFrame(chunks: map<RowId, ChunkRow>, payloads: map<Key, Payload>, chunks': map<RowId, ChunkRow>,
                    payloads': map<Key, Payload>,
                    k: Key, sha: string, locator: string, quote: string)
    requires Quoted(chunks, payloads, k, sha, locator, quote)
    requires k in payloads <==> k in payloads'
    requires k in payloads ==> payloads[k] == payloads'[k]
    requires forall r :: r in chunks && chunks[r].document == k ==> r in chunks' && chunks'[r] == chunks[r]
    ensures Quoted(chunks', payloads', k, sha, locator, quote)
  {
    hide PayloadQuotes, Contains;
  }

  lemma RemovalLive(t: Tables, k: Key)
    requires Live(t.documents, t)
    ensures Live(t.documents - {k}, RemoveContent(t, k))
    ensures forall d :: d in t.dependencies && InForce(RemoveContent(t, k).records, d) ==> d.document != k
  {
    hide Quoted, MoveEvents;
    var u := RemoveContent(t, k);
    forall d | d in t.dependencies && InForce(u.records, d)
      ensures d.document != k && Supported(t.documents - {k}, u.chunks, u.payloads, d)
    {
      assert d.record !in Citing(t, k);
      assert InForce(t.records, d);
      assert d.document != k;
      QuotedFrame(t.chunks, t.payloads, u.chunks, u.payloads, d.document, d.sha, d.locator, d.quote);
    }
  }

  lemma RowLive(documents: map<Key, Document>, t: Tables, k: Key, row: Document)
    requires Live(documents, t)
    requires k in documents ==> documents[k].state.Indexed? == row.state.Indexed? && documents[k].sha == row.sha
    ensures Live(documents[k := row], t)
  {
    hide Quoted;
  }

  lemma ReplacedRowLive(t: Tables, k: Key, row: Document)
    requires Live(t.documents, t)
    ensures Live(t.documents[k := row], RemoveContent(t, k))
  {
    hide Live, RemoveContent;
    RemovalLive(t, k);
    RowLive(t.documents - {k}, RemoveContent(t, k), k, row);
    assert (t.documents - {k})[k := row] == t.documents[k := row];
  }

  lemma ContentLive(t: Tables, k: Key, sha: string, chunks: seq<Chunk>, structured: Option<Structured>, now: Time)
    requires k in t.documents && Live(t.documents - {k}, t)
    requires forall r :: r in t.chunks ==> r < t.nextRow
    ensures var u := WithContent(t, k, sha, chunks, structured, now); Live(u.documents, u)
  {
    hide Quoted, RowsOf, SearchRowsOf;
    var u := WithContent(t, k, sha, chunks, structured, now);
    forall d | d in u.dependencies && InForce(u.records, d) ensures Supported(u.documents, u.chunks, u.payloads, d) {
      assert Supported(t.documents - {k}, t.chunks, t.payloads, d);
      QuotedFrame(t.chunks, t.payloads, u.chunks, u.payloads, d.document, d.sha, d.locator, d.quote);
    }
  }

  lemma ReindexedLive(t: Tables, k: Key, sha: string, chunks: seq<Chunk>, structured: Option<Structured>, now: Time)
    requires k in t.documents && Live(t.documents, t)
    requires forall r :: r in t.chunks ==> r < t.nextRow
    ensures var u := Reindexed(t, k, sha, chunks, structured, now); Live(u.documents, u)
  {
    hide Live, AlreadyIndexed, WithContent;
    if !AlreadyIndexed(t, k, sha, chunks, structured) {
      RemovalLive(t, k);
      ContentLive(RemoveContent(t, k), k, sha, chunks, structured, now);
    }
  }

  lemma CheckedLive(t: Tables, k: Key, r: CheckResult, now: Time)
    requires k in t.documents && Live(t.documents, t)
    ensures var u := SourceChecked(t, k, r, now); Live(u.documents, u)
  {
    hide RemoveContent, Supported, Changed, CarriedCheck;
    var u := SourceChecked(t, k, r, now);
    ReplacedRowLive(t, k, u.documents[k]);
  }

  lemma ObservedLive(t: Tables, e: Entry, scan: string, now: Time, maxBytes: nat)
    requires Live(t.documents, t)
    requires forall k :: k in t.documents && t.documents[k].state.Withdrawn? ==> t.documents[k].sha.None?
    ensures var u := Observed(t, e, scan, now, maxBytes); Live(u.documents, u)
  {
    hide RemoveContent, Supported;
    var u := Observed(t, e, scan, now, maxBytes);
    if e.key in t.documents && t.documents[e.key].fingerprint != Fingerprint(e.bytes, e.modified) {
      ReplacedRowLive(t, e.key, u.documents[e.key]);
    } else {
      RowLive(t.documents, t, e.key, u.documents[e.key]);
    }
  }

  lemma ReclassifiedLive(t: Tables, k: Key, state: DocState, reason: Reason)
    requires Live(t.documents, t)
    ensures var u := Reclassified(t, k, state, reason); Live(u.documents, u)
  {
    hide Supported;
    if k in t.documents && Waiting(t.documents[k].state) && Waiting(state) {
      RowLive(t.documents, t, k, t.documents[k].(state := state, reason := reason));
    }
  }

  lemma WithdrawnLive(t: Tables, k: Key, reason: Reason)
    requires Live(t.documents, t)
    ensures var u := Withdraw(t, k, reason); Live(u.documents, u)
  {
    hide Supported, RemoveContent;
    if k in t.documents { ReplacedRowLive(t, k, Unindexed(t.documents[k], Withdrawn, reason)); }
  }

  // ---------------------------------------------------------------- record changes

  lemma ProposalLive(t: Tables, s: Statement, key: string, id: RecordId, now: Time)
    requires Live(t.documents, t) && RecordProperties.Owned(t.dependencies, t.records)
    ensures var u := AfterProposal(t, s, key, id, now); Live(u.documents, u)
  {
    hide Quoted, CorrectedBefore, KeyTaken, Rejection, TransportKey, Accept, SourceCurrent;
    var u := AfterProposal(t, s, key, id, now);
    if JudgeProposal(t, s, key, id, now).New? {
      forall d | d in u.dependencies && InForce(u.records, d) ensures Supported(u.documents, u.chunks, u.payloads, d) {
        if d !in t.dependencies {
          var c :| c in BodyOf(s).value.citations && d == DependencyOf(id, c);
          assert CitationVerifies(t, c, now);
        } else {
          assert InForce(t.records, d);
        }
      }
    }
  }

  /** Records that stay active keep their citations; nothing else is asked of a change of status. */
  lemma StatusLive(t: Tables, u: Tables)
    requires Live(t.documents, t) && u.documents == t.documents && u.chunks == t.chunks && u.payloads == t.payloads
    requires u.dependencies == t.dependencies && RecordProperties.Evolves(t.records, u.records) && u.records.Keys == t.records.Keys
    ensures Live(u.documents, u)
  {
    hide Supported;
    forall d | d in u.dependencies && InForce(u.records, d) ensures InForce(t.records, d) {
      assert d.record in t.records;
    }
  }

  lemma ReviewLive(t: Tables, id: RecordId, revision: nat, d: Decision, authorized: bool, now: Time)
    requires Live(t.documents, t)
    ensures var u := AfterReview(t, id, revision, d, authorized, now); Live(u.documents, u)
  {
    hide Live, ReviewError, Moved, MoveEvents, Rivals, RecordProperties.Evolves;
    if ReviewError(t, id, revision, authorized, now).None? {
      ReviewAdmits(t, id, revision, authorized, now);
      ReviewedEvolves(t, id, d);
      StatusLive(t, Reviewed(t, id, d));
    }
  }

  lemma ReviewedEvolves(t: Tables, id: RecordId, d: Decision)
    requires id in t.records && Active(t.records[id].status)
    ensures RecordProperties.Evolves(t.records, Reviewed(t, id, d).records) && Reviewed(t, id, d).records.Keys == t.records.Keys
  {
    hide MoveEvents;
  }

  lemma CorrectionLive(t: Tables, id: RecordId, revision: nat, content: Text, replacement: RecordId,
                       citations: seq<Citation>,
                       authorized: bool, now: Time)
    requires Live(t.documents, t) && RecordProperties.Owned(t.dependencies, t.records)
    ensures var u := AfterCorrection(t, id, revision, content, replacement, citations, authorized, now); Live(u.documents, u)
  {
    hide CorrectionError, Supported, Accept, Lists, Replacement, MoveEvents;
    var u := AfterCorrection(t, id, revision, content, replacement, citations, authorized, now);
    if CorrectionError(t, id, revision, content, replacement, authorized, now).None? && Lists(t, id, citations) {
      CorrectionAdmits(t, id, revision, content, replacement, authorized, now);
      forall d | d in u.dependencies && InForce(u.records, d) ensures Supported(u.documents, u.chunks, u.payloads, d) {
        if d in t.dependencies {
          assert InForce(t.records, d);
        } else {
          var e :| e in t.dependencies && e.record == id && d == e.(record := replacement);
          assert Supported(t.documents, t.chunks, t.payloads, e);
          SameSupport(t, e, d);
        }
      }
    }
  }

  lemma SameSupport(t: Tables, e: Dependency, d: Dependency)
    requires d == e.(record := d.record) && Supported(t.documents, t.chunks, t.payloads, e)
    ensures Supported(t.documents, t.chunks, t.payloads, d)
  {
  }

  // ---------------------------------------------------------------- over whole runs

  lemma StepLive(t: Tables, s: Step, content: map<Key, seq<Chunk>>)
    requires Live(t.documents, t) && RecordProperties.Owned(t.dependencies, t.records)
    requires IndexProperties.Agrees(t.documents, t, content)
    ensures Live(Perform(t, s).documents, Perform(t, s))
  {
    hide Live, Observed, Reindexed, Withdraw, SourceChecked, Reclassified, AfterProposal, AfterReview, AfterCorrection, RecordProperties.Owned,
      IndexProperties.Agrees;
    AgreesParts(t, content);
    match s.op
    case Observe(e, scan, maxBytes) => ObservedLive(t, e, scan, s.now, maxBytes);
    case Index(key, _, sha, chunks, _, structured) =>
      if Indexes(t, s.op) { ReindexedLive(t, key, sha, chunks, structured, s.now); }
    case WithdrawSource(key, reason) => WithdrawnLive(t, key, reason);
    case CheckSource(key, _, _, _, result, _) => if Checks(t, s.op) { CheckedLive(t, key, result, s.now); }
    case Reclassify(key, state, reason) => ReclassifiedLive(t, key, state, reason);
    case Propose(statement, key, id) => ProposalLive(t, statement, key, id, s.now);
    case Review(id, revision, decision, authorized) => ReviewLive(t, id, revision, decision, authorized, s.now);
    case Correct(id, revision, text, replacement, citations, authorized) =>
      CorrectionLive(t, id, revision, text, replacement, citations, authorized, s.now);
  }

  lemma AgreesParts(t: Tables, content: map<Key, seq<Chunk>>)
    requires IndexProperties.Agrees(t.documents, t, content)
    ensures forall r :: r in t.chunks ==> r < t.nextRow
    ensures forall k :: k in t.documents && t.documents[k].state.Withdrawn? ==> t.documents[k].sha.None?
  {
    hide IndexProperties.Mirrors, IndexProperties.ContentHeld;
    forall k | k in t.documents ensures IndexProperties.RowVersioned(k, t.documents[k], t.versions) {
    }
  }

  lemma {:induction false} RunLive(steps: seq<Step>)
    ensures Live(Run(Empty, steps).documents, Run(Empty, steps))
  {
    hide Supported, Perform, RecordProperties.Kept, IndexProperties.Agrees;
    if steps != [] {
      var before := steps[..|steps| - 1];
      RunLive(before);
      IndexProperties.RunAgrees(before);
      var acts := RecordProperties.RunKept(before);
      RecordProperties.KeptParts(Run(Empty, before), acts);
      StepLive(Run(Empty, before), steps[|steps| - 1], LastIndexed(before));
    }
  }

  /**
   After any run, each citation of a proposed or confirmed record names a document that is indexed,
   at exactly the digest that was cited, whose content still has the quote at the cited place.
   */
  lemma {:induction false} LiveCitations(steps: seq<Step>, d: Dependency)
    requires d in Run(Empty, steps).dependencies && d.record in Run(Empty, steps).records
    requires Run(Empty, steps).records[d.record].status.Proposed? || Run(Empty, steps).records[d.record].status.Confirmed?
    ensures var t := Run(Empty, steps);
      && d.document in t.documents && t.documents[d.document].state.Indexed? && t.documents[d.document].sha == Some(d.sha)
      && RecordEffects.Stands(t, d.document, d.sha, d.locator, d.quote)
      && Quoted(t.chunks, t.payloads, d.document, d.sha, d.locator, d.quote)
  {
    hide Run, Quoted, RecordEffects.Stands;
    RunLive(steps);
    RecordEffects.QuotedStands(Run(Empty, steps), d.document, d.sha, d.locator, d.quote);
  }
}
