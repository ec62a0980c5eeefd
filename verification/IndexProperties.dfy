/**
 The search index and the stored chunks agree with the document rows after every run, and
 what can be read back of an indexed document is what it was last indexed with.
 */
module IndexProperties {
  import opened Wrappers
  import opened SourceText
  import opened KnowledgeStore
  import opened KnowledgeRuns

  // ---------------------------------------------------------------- the invariant, table by table

  ghost predicate RowsPlaced(documents: map<Key, Document>, chunks: map<RowId, ChunkRow>, nextRow: RowId) {
    forall r :: r in chunks ==> r < nextRow && chunks[r].document in documents && documents[chunks[r].document].state.Indexed?
  }

  ghost predicate ContentHeld(documents: map<Key, Document>, chunks: map<RowId, ChunkRow>, content: map<Key,
                              seq<Chunk>>) {
    forall k :: k in documents && documents[k].state.Indexed? ==>
      k in content && 0 < |content[k]| <= 2000 && HasContent(chunks, k, content[k])
  }

  ghost predicate HasSearchRow(search: set<SearchRow>, row: RowId) {
    exists s :: s in search && s.chunk == row
  }

  /** Row for row: each search row stands for one chunk, with its text, and each chunk has exactly one. */
  ghost predicate Mirrors(search: set<SearchRow>, chunks: map<RowId, ChunkRow>) {
    && (forall s :: s in search ==>
          s.chunk in chunks && s.document == chunks[s.chunk].document && s.content == chunks[s.chunk].chunk.content)
    && (forall r :: r in chunks ==> HasSearchRow(search, r))
    && (forall s, q :: s in search && q in search && s.chunk == q.chunk ==> s == q)
  }

  predicate RowVersioned(k: Key, d: Document, versions: set<Version>) {
    if d.state.Indexed? then d.sha.Some? && d.indexedAt.Some? && Version(k, d.sha.value, d.fingerprint) in versions
    else d.sha.None? && d.indexedAt.None?
  }

  ghost predicate Versioned(documents: map<Key, Document>, versions: set<Version>) {
    forall k :: k in documents ==> RowVersioned(k, documents[k], versions)
  }

  ghost predicate PayloadsCurrent(documents: map<Key, Document>, payloads: map<Key, Payload>) {
    forall k :: k in payloads ==> k in documents && documents[k].state.Indexed? && documents[k].sha == Some(payloads[k].sha)
  }

  ghost predicate Agrees(documents: map<Key, Document>, t: Tables, content: map<Key, seq<Chunk>>) {
    && RowsPlaced(documents, t.chunks, t.nextRow)
    && ContentHeld(documents, t.chunks, content)
    && Mirrors(t.search, t.chunks)
    && Versioned(documents, t.versions)
    && PayloadsCurrent(documents, t.payloads)
  }

  // ---------------------------------------------------------------- removing a document's content, and putting a row back

  lemma RemovalMirrors(search: set<SearchRow>, chunks: map<RowId, ChunkRow>, k: Key)
    requires Mirrors(search, chunks)
    ensures Mirrors(SearchWithout(search, k), ChunksWithout(chunks, k))
  {
    var left := SearchWithout(search, k);
    forall r | r in ChunksWithout(chunks, k) ensures HasSearchRow(left, r) {
      assert HasSearchRow(search, r);
      var s :| s in search && s.chunk == r;
      assert s in left;
    }
  }

  lemma RemovalHolds(documents: map<Key, Document>, chunks: map<RowId, ChunkRow>, k: Key, content: map<Key, seq<Chunk>>)
    requires ContentHeld(documents, chunks, content)
    ensures ContentHeld(documents - {k}, ChunksWithout(chunks, k), content)
  {
    forall q | q in documents - {k} && documents[q].state.Indexed? ensures HasContent(ChunksWithout(chunks, k), q, content[q]) {
      OtherContentKept(chunks, ChunksWithout(chunks, k), k, q, content[q]);
    }
  }

  /** With the content of a document gone, the other rows agree among themselves. */
  lemma RemovalAgrees(t: Tables, k: Key, content: map<Key, seq<Chunk>>)
    requires Agrees(t.documents, t, content)
    ensures Agrees(t.documents - {k}, RemoveContent(t, k), content)
    ensures RemoveContent(t, k).documents == t.documents && RemoveContent(t, k).nextRow == t.nextRow
    ensures k !in RemoveContent(t, k).payloads && k !in RemoveContent(t, k).checks
  {
    hide Mirrors, ContentHeld, HasContent, Citing, Moved, MoveEvents;
    RemovalMirrors(t.search, t.chunks, k);
    RemovalHolds(t.documents, t.chunks, k, content);
  }

  lemma OtherContentKept(before: map<RowId, ChunkRow>, after: map<RowId, ChunkRow>, k: Key, q: Key, content: seq<Chunk>)
    requires k != q && HasContent(before, q, content)
    requires forall r :: r in after && after[r].document == q ==> r in before && before[r] == after[r]
    requires forall r :: r in before && before[r].document == q ==> r in after && before[r] == after[r]
    ensures HasContent(after, q, content)
  {
    forall i: nat | i < |content| ensures HasOrdinal(after, q, i) {
      assert HasOrdinal(before, q, i);
      var r :| r in before && before[r].document == q && before[r].ordinal == i;
      assert r in after;
    }
  }

  /** A row without content, or with the content it already has, can be put in. */
  lemma RowAgrees(documents: map<Key, Document>, t: Tables, content: map<Key, seq<Chunk>>, k: Key, row: Document)
    requires Agrees(documents, t, content)
    requires k in documents ==> documents[k].state.Indexed? == row.state.Indexed? && documents[k].sha == row.sha
                                && documents[k].indexedAt == row.indexedAt && documents[k].fingerprint == row.fingerprint
    requires k !in documents ==> !row.state.Indexed? && row.sha.None? && row.indexedAt.None?
    ensures Agrees(documents[k := row], t, content)
  {
    hide Mirrors, HasContent;
    assert k in documents ==> RowVersioned(k, documents[k], t.versions);
  }

  lemma {:induction false} AddedRowsMirror(name: string, k: Key, added: seq<Chunk>, base: RowId)
    ensures Mirrors(SearchRowsOf(name, k, added, base), RowsOf(k, added, base))
  {
    hide SearchRowsOf, RowsOf;
    var search, rows := SearchRowsOf(name, k, added, base), RowsOf(k, added, base);
    forall r | r in rows ensures HasSearchRow(search, r) {
      assert SearchRow(name, added[r - base].content, k, r) in search;
    }
  }

  lemma MirrorsUnion(a: set<SearchRow>, left: map<RowId, ChunkRow>, b: set<SearchRow>, right: map<RowId, ChunkRow>)
    requires Mirrors(a, left) && Mirrors(b, right) && left.Keys !! right.Keys
    ensures Mirrors(a + b, left + right)
  {
    forall r | r in left + right ensures HasSearchRow(a + b, r) {
      assert if r in left then HasSearchRow(a, r) else HasSearchRow(b, r);
      var s :| s in (if r in left then a else b) && s.chunk == r;
      assert s in a + b;
    }
  }

  lemma {:induction false} InsertedContent(chunks: map<RowId, ChunkRow>, k: Key, added: seq<Chunk>, base: RowId)
    requires forall r :: r in chunks ==> chunks[r].document != k
    ensures HasContent(chunks + RowsOf(k, added, base), k, added)
  {
    hide RowsOf;
    forall i: nat | i < |added| ensures HasOrdinal(chunks + RowsOf(k, added, base), k, i) {
      assert (chunks + RowsOf(k, added, base))[base + i] == ChunkRow(k, i, added[i]);
    }
  }

  lemma {:induction false} InsertionHolds(documents: map<Key, Document>, chunks: map<RowId, ChunkRow>, k: Key,
                                          row: Document, added: seq<Chunk>,
                       base: RowId, content: map<Key, seq<Chunk>>)
    requires k !in documents && 0 < |added| <= 2000 && ContentHeld(documents, chunks, content)
    requires forall r :: r in chunks ==> chunks[r].document != k && r < base
    ensures ContentHeld(documents[k := row], chunks + RowsOf(k, added, base), content[k := added])
  {
    hide HasContent;
    var all := chunks + RowsOf(k, added, base);
    InsertedContent(chunks, k, added, base);
    forall q | q in documents && documents[q].state.Indexed? ensures HasContent(all, q, content[q]) {
      OtherContentKept(chunks, all, k, q, content[q]);
    }
  }

  lemma InsertionAgrees(t: Tables, k: Key, sha: string, chunks: seq<Chunk>, structured: Option<Structured>, now: Time,
                        content: map<Key, seq<Chunk>>)
    requires k in t.documents && 0 < |chunks| <= 2000 && k !in t.payloads
    requires Agrees(t.documents - {k}, t, content)
    ensures Agrees(WithContent(t, k, sha, chunks, structured, now).documents, WithContent(t, k, sha, chunks, structured, now),
                   content[k := chunks])
  {
    hide Mirrors, ContentHeld, HasContent, RowsOf, SearchRowsOf, RowVersioned;
    var u := WithContent(t, k, sha, chunks, structured, now);
    var rows := RowsOf(k, chunks, t.nextRow);
    AddedRowsMirror(t.documents[k].name, k, chunks, t.nextRow);
    MirrorsUnion(t.search, t.chunks, SearchRowsOf(t.documents[k].name, k, chunks, t.nextRow), rows);
    InsertionHolds(t.documents - {k}, t.chunks, k, u.documents[k], chunks, t.nextRow, content);
    assert u.documents == (t.documents - {k})[k := u.documents[k]];
    assert Versioned(u.documents, u.versions) by {
      forall q | q in t.documents - {k} ensures RowVersioned(q, u.documents[q], u.versions) {
        assert RowVersioned(q, (t.documents - {k})[q], t.versions);
        VersionsGrow(q, u.documents[q], t.versions, u.versions);
      }
      NewRowVersioned(k, t.documents[k], sha, now, t.versions);
    }
  }

  lemma VersionsGrow(k: Key, d: Document, before: set<Version>, after: set<Version>)
    requires RowVersioned(k, d, before) && before <= after
    ensures RowVersioned(k, d, after)
  {
  }

  lemma NewRowVersioned(k: Key, d: Document, sha: string, now: Time, versions: set<Version>)
    ensures RowVersioned(k, d.(state := Indexed, reason := NoReason, sha := Some(sha), indexedAt := Some(now)),
                         versions + {Version(k, sha, d.fingerprint)})
  {
  }

  // ---------------------------------------------------------------- every operation

  lemma ReplacedRowAgrees(t: Tables, k: Key, row: Document, content: map<Key, seq<Chunk>>)
    requires Agrees(t.documents, t, content)
    requires !row.state.Indexed? && row.sha.None? && row.indexedAt.None?
    ensures Agrees(t.documents[k := row], RemoveContent(t, k), content)
  {
    RemovalAgrees(t, k, content);
    RowAgrees(t.documents - {k}, RemoveContent(t, k), content, k, row);
    assert (t.documents - {k})[k := row] == t.documents[k := row];
  }

  lemma IndexingAgrees(t: Tables, k: Key, sha: string, chunks: seq<Chunk>, structured: Option<Structured>, now: Time,
                       content: map<Key, seq<Chunk>>)
    requires k in t.documents && 0 < |chunks| <= 2000 && Agrees(t.documents, t, content)
    ensures var u := Reindexed(t, k, sha, chunks, structured, now); Agrees(u.documents, u, content[k := chunks])
  {
    if !AlreadyIndexed(t, k, sha, chunks, structured) {
      RemovalAgrees(t, k, content);
      InsertionAgrees(RemoveContent(t, k), k, sha, chunks, structured, now, content);
    }
  }

  lemma CheckAgrees(t: Tables, k: Key, r: CheckResult, now: Time, content: map<Key, seq<Chunk>>)
    requires k in t.documents && Agrees(t.documents, t, content)
    ensures Agrees(SourceChecked(t, k, r, now).documents, SourceChecked(t, k, r, now), content)
  {
    hide Mirrors, RowsPlaced, ContentHeld, Versioned, PayloadsCurrent, RemoveContent;
    match r
    case Missing => ReplacedRowAgrees(t, k, Unindexed(t.documents[k], Withdrawn, SourceDeleted), content);
    case Denied => ReplacedRowAgrees(t, k, Unindexed(t.documents[k], Withdrawn, AccessRevoked), content);
    case Unavailable =>
    case Present(bytes, modified, _) =>
      ReplacedRowAgrees(t, k, NewVersion(t, k, bytes, modified, now, Pending, NoReason).documents[k], content);
    case Oversized(bytes, modified) =>
      ReplacedRowAgrees(t, k, NewVersion(t, k, bytes, modified, now, Unsupported, FormatOrSize).documents[k], content);
  }

  lemma ObservedAgrees(t: Tables, e: Entry, scan: string, now: Time, maxBytes: nat, content: map<Key, seq<Chunk>>)
    requires Agrees(t.documents, t, content)
    ensures var u := Observed(t, e, scan, now, maxBytes); Agrees(u.documents, u, content)
  {
    var u := Observed(t, e, scan, now, maxBytes);
    if e.key in t.documents && t.documents[e.key].fingerprint != Fingerprint(e.bytes, e.modified) {
      ReplacedRowAgrees(t, e.key, u.documents[e.key], content);
    } else {
      assert e.key in t.documents ==> RowVersioned(e.key, t.documents[e.key], t.versions);
      RowAgrees(t.documents, t, content, e.key, u.documents[e.key]);
    }
  }

  lemma WithdrawAgrees(t: Tables, k: Key, reason: Reason, content: map<Key, seq<Chunk>>)
    requires Agrees(t.documents, t, content)
    ensures Agrees(Withdraw(t, k, reason).documents, Withdraw(t, k, reason), content)
  {
    if k in t.documents { ReplacedRowAgrees(t, k, Unindexed(t.documents[k], Withdrawn, reason), content); }
  }

  lemma ReclassifiedAgrees(t: Tables, k: Key, state: DocState, reason: Reason, content: map<Key, seq<Chunk>>)
    requires Agrees(t.documents, t, content)
    ensures Agrees(Reclassified(t, k, state, reason).documents, Reclassified(t, k, state, reason), content)
  {
    if k in t.documents && Waiting(t.documents[k].state) && Waiting(state) {
      RowAgrees(t.documents, t, content, k, t.documents[k].(state := state, reason := reason));
    }
  }

  ghost predicate SameContent(t: Tables, u: Tables) {
    && u.documents == t.documents && u.chunks == t.chunks && u.nextRow == t.nextRow && u.search == t.search
    && u.versions == t.versions && u.payloads == t.payloads
  }

  lemma ProposalKeepsContent(t: Tables, s: Statement, key: string, id: RecordId, now: Time)
    ensures SameContent(t, AfterProposal(t, s, key, id, now))
  {
    hide JudgeProposal, NewRecord;
  }

  lemma ReviewKeepsContent(t: Tables, id: RecordId, revision: nat, d: Decision, authorized: bool, now: Time)
    ensures SameContent(t, AfterReview(t, id, revision, d, authorized, now))
  {
    hide ReviewError, Rivals, Decided, Superseding;
    if ReviewError(t, id, revision, authorized, now).None? {
      ReviewAdmits(t, id, revision, authorized, now);
      var u := if d.ToConfirm? then Superseding(t, Rivals(t.records, id)) else t;
      SupersedingKeepsContent(t, Rivals(t.records, id));
      DecidedKeepsContent(u, id, DecisionAction(d), DecisionStatus(d));
    }
  }

  lemma SupersedingKeepsContent(t: Tables, ids: set<RecordId>)
    ensures SameContent(t, Superseding(t, ids)) && Superseding(t, ids).records.Keys == t.records.Keys
  {
  }

  lemma DecidedKeepsContent(t: Tables, id: RecordId, action: Action, status: Status)
    requires id in t.records
    ensures SameContent(t, Decided(t, id, action, status))
  {
  }

  lemma CorrectionKeepsContent(t: Tables, id: RecordId, revision: nat, content: Text, replacement: RecordId,
                               citations: seq<Citation>,
                               authorized: bool, now: Time)
    ensures SameContent(t, AfterCorrection(t, id, revision, content, replacement, citations, authorized, now))
  {
    hide CorrectionError, Lists, Rivals, Decided, Superseding, Replacement, CopiedDependencies, Accept;
    if CorrectionError(t, id, revision, content, replacement, authorized, now).None? {
      CorrectionAdmits(t, id, revision, content, replacement, authorized, now);
      SupersedingKeepsContent(t, Rivals(t.records, id));
      DecidedKeepsContent(Superseding(t, Rivals(t.records, id)), id, CorrectedAction, Superseded);
    }
  }

  lemma SameContentAgrees(t: Tables, u: Tables, content: map<Key, seq<Chunk>>)
    requires SameContent(t, u) && Agrees(t.documents, t, content)
    ensures Agrees(u.documents, u, content)
  {
  }

  lemma {:induction false} RunAgrees(steps: seq<Step>)
    ensures Agrees(Run(Empty, steps).documents, Run(Empty, steps), LastIndexed(steps))
  {
    if steps == [] {
      return;
    }
    var before, s := steps[..|steps| - 1], steps[|steps| - 1];
    RunAgrees(before);
    StepAgrees(Run(Empty, before), s, LastIndexed(before));
  }

  lemma StepAgrees(t: Tables, s: Step, content: map<Key, seq<Chunk>>)
    requires Agrees(t.documents, t, content)
    ensures Agrees(Perform(t, s).documents, Perform(t, s),
                   if s.op.Index? && Indexes(t, s.op) then content[s.op.key := s.op.chunks] else content)
  {
    hide Agrees, Observed, Reindexed, Withdraw, SourceChecked, Reclassified, AfterProposal, AfterReview, AfterCorrection;
    match s.op
    case Observe(e, scan, maxBytes) => ObservedAgrees(t, e, scan, s.now, maxBytes, content);
    case Index(key, _, sha, chunks, _, structured) =>
      if Indexes(t, s.op) { IndexingAgrees(t, key, sha, chunks, structured, s.now, content); }
    case WithdrawSource(key, reason) =>
      WithdrawAgrees(t, key, reason, content);
    case CheckSource(key, _, _, _, result, _) =>
      if Checks(t, s.op) { CheckAgrees(t, key, result, s.now, content); }
    case Reclassify(key, state, reason) =>
      ReclassifiedAgrees(t, key, state, reason, content);
    case Propose(statement, transportKey, id) =>
      ProposalKeepsContent(t, statement, transportKey, id, s.now);
      SameContentAgrees(t, Perform(t, s), content);
    case Review(id, revision, decision, authorized) =>
      ReviewKeepsContent(t, id, revision, decision, authorized, s.now);
      SameContentAgrees(t, Perform(t, s), content);
    case Correct(id, revision, text, replacement, citations, authorized) =>
      CorrectionKeepsContent(t, id, revision, text, replacement, citations, authorized, s.now);
      SameContentAgrees(t, Perform(t, s), content);
  }

  // ---------------------------------------------------------------- what a run leaves to be searched and read

  /**
   After any run: a document has chunks exactly when it is indexed, every search row stands for
   one chunk with its text and every chunk has one, and an indexed document has the row of the
   version it shows, and no structured content of another.
   */
  lemma {:induction false} IndexAgreement(steps: seq<Step>)
    ensures var t := Run(Empty, steps);
      && (forall k :: k in t.documents ==> (t.documents[k].state.Indexed? <==> RowIds(t.chunks, k) != {}))
      && (forall r :: r in t.chunks ==> t.chunks[r].document in t.documents)
      && Mirrors(t.search, t.chunks) && Versioned(t.documents, t.versions) && PayloadsCurrent(t.documents, t.payloads)
  {
    hide Mirrors, Versioned, PayloadsCurrent;
    var t, content := Run(Empty, steps), LastIndexed(steps);
    RunAgrees(steps);
    forall k | k in t.documents && t.documents[k].state.Indexed? ensures RowIds(t.chunks, k) != {} {
      assert HasContent(t.chunks, k, content[k]);
      assert HasOrdinal(t.chunks, k, 0);
      var r :| r in t.chunks && t.chunks[r].document == k && t.chunks[r].ordinal == 0;
      assert r in RowIds(t.chunks, k);
    }
  }

  lemma {:induction false} ContentCounted(chunks: map<RowId, ChunkRow>, k: Key, content: seq<Chunk>)
    requires HasContent(chunks, k, content)
    ensures |RowIds(chunks, k)| == |content|
  {
    var n := |content|;
    if n == 0 {
      assert RowIds(chunks, k) == {};
    } else {
      assert HasOrdinal(chunks, k, n - 1);
      var last :| last in chunks && chunks[last].document == k && chunks[last].ordinal == n - 1;
      var rest := chunks - {last};
      forall i: nat | i < n - 1 ensures HasOrdinal(rest, k, i) {
        assert HasOrdinal(chunks, k, i);
        var r :| r in chunks && chunks[r].document == k && chunks[r].ordinal == i;
        assert r in rest;
      }
      ContentCounted(rest, k, content[..n - 1]);
      assert RowIds(chunks, k) == RowIds(rest, k) + {last};
    }
  }

  lemma PartsRead(t: Tables, k: Key, sha: string, part: nat, parts: nat, chunk: Chunk, content: seq<Chunk>)
    requires k in t.documents && t.documents[k].state.Indexed? && t.documents[k].sha == Some(sha)
    requires |content| <= 2000 && HasContent(t.chunks, k, content)
    ensures Reads(t, k, sha, part, parts, chunk) <==> 1 <= part <= |content| == parts && chunk == content[part - 1]
  {
    ContentCounted(t.chunks, k, content);
    if 1 <= part <= |content| {
      assert HasOrdinal(t.chunks, k, part - 1);
      var r :| r in t.chunks && t.chunks[r].document == k && t.chunks[r].ordinal == part - 1;
      assert t.chunks[r].chunk == content[part - 1];
    }
  }

  /** Reading an indexed document part by part gives exactly the chunk list it was last indexed with. */
  lemma {:induction false} ReadBack(steps: seq<Step>, k: Key, sha: string, part: nat, parts: nat, chunk: Chunk)
    ensures var t, content := Run(Empty, steps), LastIndexed(steps);
      Reads(t, k, sha, part, parts, chunk) <==>
        && k in t.documents && t.documents[k].state.Indexed? && t.documents[k].sha == Some(sha)
        && k in content && 1 <= part <= |content[k]| == parts && chunk == content[k][part - 1]
  {
    hide HasContent, Mirrors, Versioned, PayloadsCurrent, RowsPlaced, LastIndexed, Run;
    var t, content := Run(Empty, steps), LastIndexed(steps);
    RunAgrees(steps);
    if k in t.documents && t.documents[k].state.Indexed? && t.documents[k].sha == Some(sha) {
      PartsRead(t, k, sha, part, parts, chunk, content[k]);
    }
  }
}
