/**
 The store as the program keeps it: one field per table, changed row by row inside a
 transaction. Each method leaves the tables as its operation in a run does.
 */
module Catalogue {
  import opened Wrappers
  import opened SourceText
  import opened KnowledgeStore
  import opened KnowledgeRuns
  import opened RecordEffects
  import opened SourceEffects

  class Store {
    const maxFileBytes: nat
    var documents: map<Key, Document>
    var chunks: map<RowId, ChunkRow>
    var nextRow: RowId
    var search: set<SearchRow>
    var versions: set<Version>
    var payloads: map<Key, Payload>
    var checks: map<Key, Check>
    var records: map<RecordId, Record>
    var dependencies: set<Dependency>
    var corrections: map<RecordId, Correction>
    var events: multiset<Event>

    function Value(): Tables
      reads this
    {
      Tables(documents, chunks, nextRow, search, versions, payloads, checks, records, dependencies, corrections, events)
    }

    constructor (limit: nat)
      ensures Value() == Empty && maxFileBytes == limit
    {
      maxFileBytes := limit;
      documents, chunks, nextRow, search, versions, payloads := map[], map[], 0, {}, {}, map[];
      checks, records, dependencies, corrections, events := map[], map[], {}, map[], multiset{};
    }

    /** Everything that was derived from a document's content goes with it. */
    method RemoveContent(document: Key)
      modifies this
      ensures Value() == KnowledgeStore.RemoveContent(old(Value()), document)
      ensures Invalidates(old(Value()), Value(), document) && Forgets(old(Value()), Value(), document)
      ensures documents == old(documents)
    {
      hide Invalidates, Forgets;
      hide Citing, Moved, MoveEvents, SearchWithout, ChunksWithout;
      InvalidateCiting(document);
      checks := checks - {document};
      payloads := payloads - {document};
      search := SearchWithout(search, document);
      chunks := ChunksWithout(chunks, document);
      RemovalInvalidates(old(Value()), document);
    }

    /** Every record in force that cites the document becomes stale, with one event each. */
    method InvalidateCiting(document: Key)
      modifies this`records, this`events
      ensures Invalidates(old(Value()), Value(), document)
      ensures records == Moved(old(records), Citing(old(Value()), document), Stale)
      ensures events == old(events) + multiset(MoveEvents(old(records), Citing(old(Value()), document), SourceInvalidated))
    {
      hide Citing, Moved, MoveEvents, Invalid, NextEvent, Forgets;
      var citing := Citing(Value(), document);
      events := events + multiset(MoveEvents(records, citing, SourceInvalidated));
      records := Moved(records, citing, Stale);
      RemovalInvalidates(old(Value()), document);
    }

    /** One row per chunk, with its search row, in order. */
    method InsertChunks(key: Key, name: string, added: seq<Chunk>)
      modifies this`chunks, this`search, this`nextRow
      ensures chunks == old(chunks) + RowsOf(key, added, old(nextRow))
      ensures search == old(search) + SearchRowsOf(name, key, added, old(nextRow))
      ensures nextRow == old(nextRow) + |added|
    {
      hide RowsOf, SearchRowsOf;
      ghost var base := nextRow;
      NoRows(key, name, base);
      assert added[..0] == [];
      for ordinal := 0 to |added|
        invariant nextRow == base + ordinal
        invariant chunks == old(chunks) + RowsOf(key, added[..ordinal], base)
        invariant search == old(search) + SearchRowsOf(name, key, added[..ordinal], base)
      {
        OneMoreRow(key, name, added, ordinal, base);
        chunks := chunks[nextRow := ChunkRow(key, ordinal, added[ordinal])];
        search := search + {SearchRow(name, added[ordinal].content, key, nextRow)};
        nextRow := nextRow + 1;
      }
      assert added[..|added|] == added;
    }

    lemma {:induction false} NoRows(key: Key, name: string, base: RowId)
      ensures RowsOf(key, [], base) == map[] && SearchRowsOf(name, key, [], base) == {}
    {
    }

    lemma {:induction false} OneMoreRow(key: Key, name: string, added: seq<Chunk>, i: nat, base: RowId)
      requires i < |added|
      ensures RowsOf(key, added[..i + 1], base) == RowsOf(key, added[..i], base)[base + i := ChunkRow(key, i, added[i])]
      ensures SearchRowsOf(name, key, added[..i + 1], base)
              == SearchRowsOf(name, key, added[..i], base) + {SearchRow(name, added[i].content, key, base + i)}
    {
      assert added[..i + 1][..i] == added[..i];
    }

    method IndexDocument(key: Key, expected: Fingerprint, sha: string, content: seq<Chunk>, screened: bool,
                         structured: Option<Structured>,
                         now: Time) returns (r: Result<(), Error>)
      modifies this
      ensures Value() == Perform(old(Value()), Step(Index(key, expected, sha, content, screened, structured), now))
      ensures r.Ok? <==>
        && 0 < |content| <= 2000 && screened
        && (forall i :: 0 <= i < |content| ==> 0 < |content[i].locator| <= 500 && !Blank(content[i].content))
        && key in old(documents) && old(documents)[key].fingerprint == expected
        && (old(documents)[key].state.Pending? || old(documents)[key].state.Indexed? || old(documents)[key].state.Unreadable?)
      ensures r.Err? ==> Value() == old(Value())
      ensures r.Ok? ==>
        if HoldsAlready(old(Value()), key, sha, content, structured) then Value() == old(Value())
        else IndexedAs(old(Value()), Value(), key, sha, content, structured, now)
    {
      hide AlreadyIndexed, KnowledgeStore.RemoveContent, WithContent, IndexedAs, HoldsAlready;
      if !ChunksAcceptable(content, screened) { return Err(InvalidChunks); }
      if !Indexable(documents, key, expected) { return Err(SourceVersionChanged); }
      AlreadyExactly(Value(), key, sha, content, structured);
      if AlreadyIndexed(Value(), key, sha, content, structured) { return Ok(()); }
      IndexEffect(Value(), key, sha, content, structured, now);
      ReplaceContent(key, sha, content, structured, now);
      return Ok(());
    }

    method ReplaceContent(key: Key, sha: string, content: seq<Chunk>, structured: Option<Structured>, now: Time)
      requires key in documents
      modifies this
      ensures Value() == WithContent(KnowledgeStore.RemoveContent(old(Value()), key), key, sha, content, structured, now)
    {
      hide KnowledgeStore.RemoveContent, RowsOf, SearchRowsOf, Invalidates, Forgets;
      var row := documents[key];
      RemoveContent(key);
      if structured.Some? {
        payloads := payloads[key := Payload(sha, structured.value)];
      }
      InsertChunks(key, row.name, content);
      versions := versions + {Version(key, sha, row.fingerprint)};
      documents := documents[key := row.(state := Indexed, reason := NoReason, sha := Some(sha), indexedAt := Some(now))];
    }

    method WithdrawDocument(key: Key, reason: Reason, now: Time)
      modifies this
      ensures Value() == Perform(old(Value()), Step(WithdrawSource(key, reason), now))
      ensures WithdrawnAs(old(Value()), Value(), key, reason)
    {
      hide Invalidates, Forgets, WithdrawnAs;
      WithdrawEffect(Value(), key, reason);
      if key in documents {
        RemoveContent(key);
        documents := documents[key := Unindexed(documents[key], Withdrawn, reason)];
      }
    }

    method RecordSourceCheck(key: Key, expected: Fingerprint, expectedSha: Option<string>, expectedState: DocState,
                             result: CheckResult,
                             now: Time) returns (r: Result<(), Error>)
      modifies this
      ensures Value() == Perform(old(Value()), Step(CheckSource(key, expected, expectedSha, expectedState, result, maxFileBytes), now))
      ensures r.Ok? <==> Checks(old(Value()), CheckSource(key, expected, expectedSha, expectedState, result, maxFileBytes))
      ensures r.Ok? <==>
        && (result.Present? ==> result.bytes <= maxFileBytes) && (result.Oversized? ==> result.bytes > maxFileBytes)
        && key in old(documents) && old(documents)[key].fingerprint == expected && old(documents)[key].sha == expectedSha
        && old(documents)[key].state == expectedState
      ensures r.Err? ==> Value() == old(Value())
      ensures r.Ok? ==> CheckedAs(old(Value()), Value(), key, result, now)
    {
      hide KnowledgeStore.RemoveContent, Changed, Invalidates, Forgets, CheckedAs;
      if key in documents { CheckEffect(Value(), key, result, now); }
      if !CheckAcceptable(result, maxFileBytes) { return Err(InvalidSourceCheck); }
      if key !in documents || documents[key].fingerprint != expected || documents[key].sha != expectedSha
         || documents[key].state != expectedState { return Err(SourceVersionChanged); }
      var row := documents[key];
      var verified := if key in checks then checks[key].verifiedAt else row.indexedAt;
      var digest := if key in checks then checks[key].sha else row.sha;
      match result {
        case Missing =>
          RemoveContent(key);
          documents := documents[key := Unindexed(row, Withdrawn, SourceDeleted)];
          checks := checks[key := Check(now, None, MissingOutcome, None)];
        case Denied =>
          RemoveContent(key);
          documents := documents[key := Unindexed(row, Withdrawn, AccessRevoked)];
          checks := checks[key := Check(now, None, DeniedOutcome, None)];
        case Unavailable =>
          checks := checks[key := Check(now, verified, UnavailableOutcome, digest)];
        case Present(bytes, modified, sha) =>
          if Changed(row, result) { Supersede(key, bytes, modified, Pending, NoReason, now); }
          checks := checks[key := Check(now, Some(now), PresentOutcome, Some(sha))];
        case Oversized(bytes, modified) =>
          if Changed(row, result) { Supersede(key, bytes, modified, Unsupported, FormatOrSize, now); }
          checks := checks[key := Check(now, None, OversizedOutcome, None)];
      }
      return Ok(());
    }

    /** The source shows another version: what was indexed goes, and the row waits to be read again. */
    method Supersede(key: Key, bytes: nat, modified: string, state: DocState, reason: Reason, now: Time)
      requires key in documents
      modifies this
      ensures Value() == NewVersion(old(Value()), key, bytes, modified, now, state, reason)
      ensures Invalidates(old(Value()), Value(), key) && Forgets(old(Value()), Value(), key)
      ensures documents.Keys == old(documents).Keys && forall k :: k in documents && k != key ==> documents[k] == old(documents)[k]
      ensures documents[key].state == state && documents[key].reason == reason && documents[key].sha.None? && documents[key].indexedAt.None?
      ensures documents[key].fingerprint == Fingerprint(bytes, modified)
    {
      hide Invalidates, Forgets, KnowledgeStore.RemoveContent;
      RemoveContent(key);
      WithOtherRows(old(Value()), Value(), documents[key := NewVersion(Value(), key, bytes, modified, now, state, reason).documents[key]], key);
      documents := documents[key := documents[key].(bytes := bytes, modified := modified, fingerprint := Fingerprint(bytes, modified),
                                                    lastSeen := now, state := state, reason := reason, sha := None, indexedAt := None)];
    }

    /** One file of a recorded page: a row is inserted, or brought up to the version that was seen. */
    method ObserveFile(e: Entry, scan: string, now: Time)
      modifies this
      ensures Value() == Perform(old(Value()), Step(Observe(e, scan, maxFileBytes), now))
      ensures SeenAs(old(Value()), Value(), e, scan, now, maxFileBytes)
    {
      hide SeenAs, KnowledgeStore.RemoveContent;
      ObservedEffect(Value(), e, scan, now, maxFileBytes);
      if e.key in documents {
        Refresh(e, scan, now);
      } else {
        var supported := e.formatRead && e.bytes <= maxFileBytes;
        documents := documents[e.key :=
          Document(e.source, e.name, e.bytes, e.modified, Fingerprint(e.bytes, e.modified), scan, now,
                   if supported then Pending else Unsupported, if supported then NoReason else FormatOrSize, None, None)];
      }
    }

    /** The row of a known file is brought up to the version that was seen. */
    method Refresh(e: Entry, scan: string, now: Time)
      requires e.key in documents
      modifies this
      ensures Value() == Observed(old(Value()), e, scan, now, maxFileBytes)
    {
      hide Invalidates, Forgets, KnowledgeStore.RemoveContent;
      var previous, version := documents[e.key], Fingerprint(e.bytes, e.modified);
      var supported := e.formatRead && e.bytes <= maxFileBytes;
      var state := if supported then Pending else Unsupported;
      var reason := if supported then NoReason else FormatOrSize;
      var same := previous.fingerprint == version;
      if !same {
        RemoveContent(e.key);
      }
      var held := previous.state.Withdrawn? && (previous.reason.AccessRevoked? || previous.reason.ScopeChanged?);
      documents := documents[e.key :=
        Document(e.source, e.name, e.bytes, e.modified, version, scan, now,
                 if held then previous.state else if same && !previous.state.Withdrawn? then previous.state else state,
                 if held || same then previous.reason else reason,
                 if same then previous.sha else None,
                 if same then previous.indexedAt else None)];
    }

    /** Ingestion moves a row that waits, and has no content, to another waiting state; it touches nothing else. */
    method Reclassify(key: Key, state: DocState, reason: Reason, now: Time)
      modifies this`documents
      ensures Value() == Perform(old(Value()), Step(KnowledgeRuns.Reclassify(key, state, reason), now))
      ensures documents == if key in old(documents) && !state.Indexed? && !state.Withdrawn?
                              && !old(documents)[key].state.Indexed? && !old(documents)[key].state.Withdrawn?
                           then old(documents)[key := old(documents)[key].(state := state, reason := reason)] else old(documents)
    {
      if key in documents && Waiting(documents[key].state) && Waiting(state) {
        documents := documents[key := documents[key].(state := state, reason := reason)];
      }
    }

    /** A part of the indexed version, with the number of parts. */
    method ReadDocument(key: Key, sha: string, part: nat) returns (r: Result<(nat, Chunk), Error>)
      ensures r.Ok? ==> Reads(Value(), key, sha, part, r.value.0, r.value.1)
      ensures r.Err? ==> forall parts, chunk :: !Reads(Value(), key, sha, part, parts, chunk)
      ensures r.Ok? ==>
        && key in documents && documents[key].state.Indexed? && documents[key].sha == Some(sha) && 1 <= part <= 2000
        && exists row :: row in chunks && chunks[row] == ChunkRow(key, part - 1, r.value.1)
    {
      if !(1 <= part <= 2000) { return Err(PartUnavailable); }
      if !(key in documents && documents[key].state.Indexed? && documents[key].sha == Some(sha)) { return Err(VersionUnavailable); }
      var parts := |RowIds(chunks, key)|;
      if !HasOrdinal(chunks, key, part - 1) { return Err(PartUnavailable); }
      var row :| row in chunks && chunks[row].document == key && chunks[row].ordinal == part - 1;
      return Ok((parts, chunks[row].chunk));
    }

    // -------------------------------------------------------------- derived knowledge

    method Propose(s: Statement, key: string, id: RecordId, now: Time) returns (r: Result<(), Error>)
      modifies this
      ensures Value() == Perform(old(Value()), Step(KnowledgeRuns.Propose(s, key, id), now))
      ensures r.Ok? <==>
        || Fileable(old(Value()), s, key, id, now)
        || (WellStated(s, key)
            && exists q :: q in old(records) && old(records)[q].idempotencyKey == key && old(records)[q].input == Submitted(s))
      ensures if Fileable(old(Value()), s, key, id, now) then Files(old(Value()), Value(), s, key, id) else Value() == old(Value())
    {
      hide Accept, CorrectedBefore, Rejection, SourceCurrent, Quoted, SameStatement, Fileable, Files;
      WellStatedExactly(s, key);
      hide TransportKey, WellStated;
      FileableExactly(Value(), s, key, id, now);
      if Fileable(Value(), s, key, id, now) { ProposalEffect(Value(), s, key, id, now); }
      var judged := JudgeProposal(Value(), s, key, id, now);
      if judged.Refused? { return Err(judged.error); }
      if judged.Existing? { return Ok(()); }
      var body := BodyOf(s).value;
      records := records[id := NewRecord(body, key)];
      InsertDependencies(id, body.citations);
      events := events + multiset{Event(id, 1, ProposedAction)};
      return Ok(());
    }

    method InsertDependencies(id: RecordId, citations: seq<Citation>)
      requires forall c :: c in citations ==> Accept(c.locator, 500).Some? && Accept(c.quote, 4000).Some?
      modifies this`dependencies
      ensures dependencies == old(dependencies) + set c | c in citations :: DependencyOf(id, c)
    {
      hide Accept;
      for i := 0 to |citations|
        invariant dependencies == old(dependencies) + set c | c in citations[..i] :: DependencyOf(id, c)
      {
        dependencies := dependencies + {DependencyOf(id, citations[i])};
      }
      assert citations[..|citations|] == citations;
    }

    method SupersedeRivals(id: RecordId)
      requires id in records
      modifies this`records, this`events
      ensures Value() == Superseding(old(Value()), Rivals(old(records), id))
      ensures Supersedes(old(Value()), Value(), id)
      ensures records.Keys == old(records).Keys && records[id] == old(records)[id]
    {
      SupersedingEffect(Value(), id);
      var rivals := Rivals(records, id);
      events := events + multiset(MoveEvents(records, rivals, SupersededAction));
      records := Moved(records, rivals, Superseded);
    }

    /** The record takes its next revision, with one event. */
    method Decide(id: RecordId, action: Action, status: Status)
      requires id in records
      modifies this`records, this`events
      ensures Value() == Decided(old(Value()), id, action, status)
    {
      var revision := records[id].revision + 1;
      records := records[id := records[id].(status := status, revision := revision)];
      events := events + multiset{Event(id, revision, action)};
    }

    method Review(id: RecordId, revision: nat, decision: Decision, authorized: bool,
                  now: Time) returns (r: Result<(), Error>)
      modifies this
      ensures Value() == Perform(old(Value()), Step(KnowledgeRuns.Review(id, revision, decision, authorized), now))
      ensures r.Ok? <==> Reviewable(old(Value()), id, revision, authorized, now)
      ensures r.Err? ==> Value() == old(Value())
      ensures r.Ok? ==> Decides(old(Value()), Value(), id, decision)
    {
      ReviewableExactly(Value(), id, revision, authorized, now);
      if id in records { ReviewEffect(Value(), id, decision); }
      hide Reviewable, Decides, StillCited, Rivals, Superseding, Decided, Supersedes;
      var refused := ReviewError(Value(), id, revision, authorized, now);
      if refused.Some? { return Err(refused.value); }
      if decision.ToConfirm? { SupersedeRivals(id); }
      Decide(id, DecisionAction(decision), DecisionStatus(decision));
      return Ok(());
    }

    /** The citations of a record, each once. */
    method CitationsOf(id: RecordId) returns (citations: seq<Citation>)
      ensures Lists(Value(), id, citations)
      ensures QuotesOf(Value(), id, citations)
    {
      citations := [];
      var left := set d | d in dependencies && d.record == id;
      while left != {}
        invariant forall d :: d in left ==> d in dependencies && d.record == id
        invariant forall d :: d in dependencies && d.record == id ==> d in left || CitationOf(Value(), d) in citations
        invariant forall c :: c in citations ==> Cited(id, c) in dependencies - left && c == CitationOf(Value(), Cited(id, c))
        invariant forall i, j :: 0 <= i < j < |citations| ==> citations[i] != citations[j]
        decreases |left|
      {
        var d :| d in left;
        assert Cited(id, CitationOf(Value(), d)) == d;
        citations := citations + [CitationOf(Value(), d)];
        left := left - {d};
      }
      ListsQuotes(Value(), id, citations);
    }

    /** A correction closes the old record, with its rivals, and files its replacement, confirmed, with the same quotes. */
    method Correct(id: RecordId, revision: nat, content: Text, replacement: RecordId, authorized: bool, now: Time)
      returns (r: Result<seq<Citation>, Error>)
      modifies this
      ensures r.Ok? <==> CorrectionError(old(Value()), id, revision, content, replacement, authorized, now).None?
      ensures r.Ok? ==>
        && Lists(old(Value()), id, r.value) && QuotesOf(old(Value()), id, r.value)
        && Value() == Perform(old(Value()), Step(KnowledgeRuns.Correct(id, revision, content, replacement, r.value, authorized), now))
        && Replaces(old(Value()), Value(), id, replacement, Accept(content, 8000).value, r.value)
      ensures r.Ok? <==> Correctable(old(Value()), id, revision, content, replacement, authorized, now)
      ensures r.Err? ==> Value() == old(Value())
    {
      hide CorrectionError, Correctable, Corrected, Accept, Lists, QuotesOf, Replaces;
      CorrectableExactly(Value(), id, revision, content, replacement, authorized, now);
      var refused := CorrectionError(Value(), id, revision, content, replacement, authorized, now);
      if refused.Some? { return Err(refused.value); }
      CorrectionPerformed(Value(), id, revision, content, replacement, authorized, now);
      hide Perform;
      CorrectionAdmits(Value(), id, revision, content, replacement, authorized, now);
      var citations := CitationsOf(id);
      FileCorrection(id, replacement, Accept(content, 8000).value, citations);
      return Ok(citations);
    }

    lemma CorrectionPerformed(t: Tables, id: RecordId, revision: nat, content: Text, replacement: RecordId, authorized: bool, now: Time)
      requires CorrectionError(t, id, revision, content, replacement, authorized, now).None?
      ensures id in t.records && Accept(content, 8000).Some?
      ensures forall citations :: Lists(t, id, citations) ==>
        Perform(t, Step(KnowledgeRuns.Correct(id, revision, content, replacement, citations, authorized), now))
        == Corrected(t, id, replacement, Accept(content, 8000).value, citations)
    {
      hide Lists, Corrected, Accept;
      CorrectionAdmits(t, id, revision, content, replacement, authorized, now);
    }

    method FileCorrection(id: RecordId, replacement: RecordId, text: string, citations: seq<Citation>)
      requires id in records && replacement !in records
      modifies this`records, this`dependencies, this`corrections, this`events
      ensures Value() == Corrected(old(Value()), id, replacement, text, citations)
      ensures Replaces(old(Value()), Value(), id, replacement, text, citations)
    {
      hide Replaces, Closes, Rivals, Superseding, Decided, Replacement, CopiedDependencies;
      var previous := records[id];
      CloseCorrected(id);
      records := records[replacement := Replacement(previous, id, text, citations)];
      dependencies := dependencies + CopiedDependencies(dependencies, id, replacement);
      corrections := corrections[replacement := Correction(id, previous.revision)];
      events := events + multiset{Event(replacement, 1, CorrectionConfirmed)};
      CorrectionEffect(old(Value()), id, replacement, text, citations);
    }

    method CloseCorrected(id: RecordId)
      requires id in records
      modifies this`records, this`events
      ensures id in Superseding(old(Value()), Rivals(old(records), id)).records
      ensures Closes(old(Value()), Value(), id)
      ensures Value() == Decided(Superseding(old(Value()), Rivals(old(records), id)), id, CorrectedAction, Superseded)
    {
      hide Closes, Supersedes, Rivals, Superseding, Decided;
      ClosingEffect(Value(), id);
      SupersedeRivals(id);
      Decide(id, CorrectedAction, Superseded);
    }
  }
}
