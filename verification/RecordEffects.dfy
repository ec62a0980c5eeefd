/**
 What the operations on records do, record by record and event by event: the effects that the
 specification functions of the store amount to.
 */
module RecordEffects {
  import opened Wrappers
  import opened SourceText
  import opened KnowledgeStore

  predicate Cites(t: Tables, record: RecordId, document: Key) {
    exists d :: d in t.dependencies && d.record == record && d.document == document
  }

  function Moving(r: Record, status: Status): Record {
    r.(status := status, revision := r.revision + 1)
  }

  /** The event with which a record takes its next revision. */
  predicate NextEvent(t: Tables, e: Event, action: Action) {
    e.record in t.records && e.revision == t.records[e.record].revision + 1 && e.action == action
  }

  // ---------------------------------------------------------------- content that goes

  predicate Invalid(t: Tables, record: RecordId, document: Key) {
    && record in t.records && (t.records[record].status.Proposed? || t.records[record].status.Confirmed?)
    && Cites(t, record, document)
  }

  /** Each record in force that cites the document turns stale, with one event; no other record or event changes. */
  ghost predicate Invalidates(t: Tables, u: Tables, document: Key) {
    && u.records.Keys == t.records.Keys
    && (forall r :: r in t.records ==>
          u.records[r] == if Invalid(t, r, document) then Moving(t.records[r], Stale) else t.records[r])
    && (forall e: Event :: u.events[e] ==
          t.events[e] + if Invalid(t, e.record, document) && NextEvent(t, e, SourceInvalidated) then 1 else 0)
    && u.dependencies == t.dependencies && u.corrections == t.corrections
  }

  /** Nothing read from the document is left, and everything read from other documents is. */
  ghost predicate ForgetsContent(t: Tables, u: Tables, document: Key) {
    && (forall r :: r in u.chunks <==> r in t.chunks && t.chunks[r].document != document)
    && (forall r :: r in u.chunks ==> u.chunks[r] == t.chunks[r])
    && (forall s :: s in u.search <==> s in t.search && s.document != document)
    && (forall k :: k in u.payloads <==> k in t.payloads && k != document)
    && (forall k :: k in u.payloads ==> u.payloads[k] == t.payloads[k])
    && u.versions == t.versions && u.nextRow == t.nextRow
  }

  /** Nor is its check. */
  ghost predicate Forgets(t: Tables, u: Tables, document: Key) {
    && ForgetsContent(t, u, document)
    && (forall k :: k in u.checks <==> k in t.checks && k != document)
    && (forall k :: k in u.checks ==> u.checks[k] == t.checks[k])
  }

  lemma CitingIsInvalid(t: Tables, document: Key)
    ensures forall r :: r in Citing(t, document) <==> Invalid(t, r, document)
  {
  }

  lemma EventsMoved(t: Tables, ids: set<RecordId>, action: Action, e: Event)
    ensures (t.events + multiset(MoveEvents(t.records, ids, action)))[e]
            == t.events[e] + if e.record in ids && NextEvent(t, e, action) then 1 else 0
  {
    var moved := MoveEvents(t.records, ids, action);
    assert e in moved <==> e.record in ids && NextEvent(t, e, action);
  }

  lemma RemovalInvalidates(t: Tables, document: Key)
    ensures Invalidates(t, RemoveContent(t, document), document) && Forgets(t, RemoveContent(t, document), document)
    ensures RemoveContent(t, document).documents == t.documents
  {
    hide Invalid, NextEvent, MoveEvents, Citing;
    CitingIsInvalid(t, document);
    var u := RemoveContent(t, document);
    forall e: Event ensures u.events[e] == t.events[e] + if Invalid(t, e.record, document) && NextEvent(t, e, SourceInvalidated) then 1 else 0 {
      EventsMoved(t, Citing(t, document), SourceInvalidated, e);
    }
  }

  /** The document rows do not matter for either. */
  lemma WithOtherRows(t: Tables, u: Tables, documents: map<Key, Document>, document: Key)
    requires Invalidates(t, u, document) && Forgets(t, u, document)
    ensures Invalidates(t, u.(documents := documents), document) && Forgets(t, u.(documents := documents), document)
  {
    hide Invalid, NextEvent;
  }

  // ---------------------------------------------------------------- answers that give way

  predicate Rival(t: Tables, record: RecordId, id: RecordId)
    requires id in t.records
  {
    && record in t.records && record != id && t.records[record].status.Confirmed?
    && t.records[record].kind == t.records[id].kind && t.records[record].entityType == t.records[id].entityType
    && t.records[record].entityKey == t.records[id].entityKey && t.records[record].topic == t.records[id].topic
  }

  /** The other confirmed answers to the question of a record are superseded, with one event each; nothing else changes. */
  ghost predicate Supersedes(t: Tables, u: Tables, id: RecordId)
    requires id in t.records
  {
    && u.records.Keys == t.records.Keys
    && (forall r :: r in t.records ==> u.records[r] == if Rival(t, r, id) then Moving(t.records[r], Superseded) else t.records[r])
    && (forall e: Event :: u.events[e] == t.events[e] + if Rival(t, e.record, id) && NextEvent(t, e, SupersededAction) then 1 else 0)
    && u.dependencies == t.dependencies && u.corrections == t.corrections
  }

  lemma SupersedingEffect(t: Tables, id: RecordId)
    requires id in t.records
    ensures Supersedes(t, Superseding(t, Rivals(t.records, id)), id)
  {
    hide NextEvent, MoveEvents;
    assert forall r :: r in Rivals(t.records, id) <==> Rival(t, r, id);
    var u := Superseding(t, Rivals(t.records, id));
    forall e: Event ensures u.events[e] == t.events[e] + if Rival(t, e.record, id) && NextEvent(t, e, SupersededAction) then 1 else 0 {
      EventsMoved(t, Rivals(t.records, id), SupersededAction, e);
    }
  }

  /** The record and its rivals are superseded, with one event each; nothing else changes. */
  ghost predicate Closes(t: Tables, u: Tables, id: RecordId)
    requires id in t.records
  {
    && u.records.Keys == t.records.Keys
    && (forall r :: r in t.records ==>
          u.records[r] == if r == id || Rival(t, r, id) then Moving(t.records[r], Superseded) else t.records[r])
    && (forall e: Event :: u.events[e] == t.events[e]
          + (if Rival(t, e.record, id) && NextEvent(t, e, SupersededAction) then 1 else 0)
          + (if e.record == id && NextEvent(t, e, CorrectedAction) then 1 else 0))
    && u.dependencies == t.dependencies && u.corrections == t.corrections
  }

  lemma ClosingEffect(t: Tables, id: RecordId)
    requires id in t.records
    ensures id in Superseding(t, Rivals(t.records, id)).records
    ensures Closes(t, Decided(Superseding(t, Rivals(t.records, id)), id, CorrectedAction, Superseded), id)
  {
    hide Rivals, Superseding, Rival, NextEvent;
    SupersedingEffect(t, id);
    NoRivalOfItself(t, id);
    var v := Superseding(t, Rivals(t.records, id));
    assert v.records[id] == t.records[id];
    forall e: Event ensures e == Event(id, t.records[id].revision + 1, CorrectedAction) <==> e.record == id && NextEvent(t, e, CorrectedAction) {
      OneNextEvent(t, id, CorrectedAction, e);
    }
  }

  lemma NoRivalOfItself(t: Tables, id: RecordId)
    requires id in t.records
    ensures !Rival(t, id, id)
  {
  }

  lemma OneNextEvent(t: Tables, id: RecordId, action: Action, e: Event)
    requires id in t.records
    ensures e == Event(id, t.records[id].revision + 1, action) <==> e.record == id && NextEvent(t, e, action)
  {
  }

  /**
   A correction: the record and its rivals give way, and one confirmed record is new, with the old
   one's quotes, the note of what it corrects, and its own first event; nothing else changes.
   */
  ghost predicate Replaces(t: Tables, u: Tables, id: RecordId, replacement: RecordId, content: string, citations: seq<Citation>)
    requires id in t.records
  {
    && u.records.Keys == t.records.Keys + {replacement}
    && (forall r :: r in t.records ==>
          u.records[r] == if r == id || Rival(t, r, id) then Moving(t.records[r], Superseded) else t.records[r])
    && (var r := t.records[id];
        u.records[replacement] == Record(r.kind, r.entityType, r.entityKey, r.title, r.topic, content, Confirmed, 1,
                                         "correction:" + id + ":" + Digits(r.revision),
                                         Body(r.kind, r.entityType, Text(r.entityKey, false), Text(r.title, false), r.topic, content, citations)))
    && (forall e: Event :: u.events[e] == t.events[e]
          + (if Rival(t, e.record, id) && NextEvent(t, e, SupersededAction) then 1 else 0)
          + (if e.record == id && NextEvent(t, e, CorrectedAction) then 1 else 0)
          + (if e == Event(replacement, 1, CorrectionConfirmed) then 1 else 0))
    && (forall d: Dependency :: d in u.dependencies <==> d in t.dependencies || (d.record == replacement && d.(record := id) in t.dependencies))
    && u.corrections == t.corrections[replacement := Correction(id, t.records[id].revision)]
  }

  lemma CorrectionEffect(t: Tables, id: RecordId, replacement: RecordId, content: string, citations: seq<Citation>)
    requires id in t.records && replacement !in t.records
    ensures Replaces(t, Corrected(t, id, replacement, content, citations), id, replacement, content, citations)
  {
    hide Rivals, Superseding, Decided, Digits, Rival, NextEvent;
    ClosingEffect(t, id);
  }

  // ---------------------------------------------------------------- a reviewer's decision

  /**
   The record takes its next revision: confirmed, rejected or deleted as was decided, with that one
   event. A confirmation supersedes exactly the rivals, with one event each; nothing else changes.
   */
  ghost predicate Decides(t: Tables, u: Tables, id: RecordId, d: Decision)
    requires id in t.records
  {
    var next := t.records[id].revision + 1;
    && u == t.(records := u.records, events := u.events)
    && u.records.Keys == t.records.Keys
    && u.records[id] == t.records[id].(revision := next,
                                         status := match d case ToConfirm => Confirmed case ToReject => Rejected case ToDelete => Deleted)
    && (forall r :: r in t.records && r != id ==>
          u.records[r] == if d.ToConfirm? && Rival(t, r, id) then Moving(t.records[r], Superseded) else t.records[r])
    && (forall e: Event :: u.events[e] == t.events[e]
          + (if e == Event(id, next, match d case ToConfirm => Confirm case ToReject => Reject case ToDelete => Delete) then 1 else 0)
          + (if d.ToConfirm? && Rival(t, e.record, id) && NextEvent(t, e, SupersededAction) then 1 else 0))
  }

  lemma ReviewEffect(t: Tables, id: RecordId, d: Decision)
    requires id in t.records
    ensures Decides(t, Reviewed(t, id, d), id, d)
  {
    hide Rivals, Superseding, Rival, NextEvent;
    SupersedingEffect(t, id);
    NoRivalOfItself(t, id);
    var v := Superseding(t, Rivals(t.records, id));
    assert v == t.(records := v.records, events := v.events) by { OnlyRecords(t, id); }
    assert v.records[id] == t.records[id];
  }

  lemma OnlyRecords(t: Tables, id: RecordId)
    requires id in t.records
    ensures var v := Superseding(t, Rivals(t.records, id)); v == t.(records := v.records, events := v.events)
  {
  }

  // ---------------------------------------------------------------- what a record rests on

  /** The document is indexed at this digest, and was verified at it at most a day ago. */
  predicate LatelyVerified(t: Tables, document: Key, sha: string, now: Time) {
    && document in t.documents && t.documents[document].state.Indexed? && t.documents[document].sha == Some(sha)
    && if document in t.checks then
         && t.checks[document].sha == Some(sha) && t.checks[document].verifiedAt.Some?
         && 0.0 <= now - t.checks[document].verifiedAt.value <= 86400.0
       else
         t.documents[document].indexedAt.Some? && 0.0 <= now - t.documents[document].indexedAt.value <= 86400.0
  }

  /**
   The quote stands at the cited place: in a segment or a cell of the structured content, where there
   is one of this digest, and in a chunk of the document otherwise.
   */
  ghost predicate Stands(t: Tables, document: Key, sha: string, locator: string, quote: string) {
    if document in t.payloads then
      var content := t.payloads[document].content;
      && t.payloads[document].sha == sha
      && ((exists i, a, b :: 0 <= i < |content.segments| && content.segments[i].locator == locator
                             && 0 <= a <= b <= |content.segments[i].content| && content.segments[i].content[a..b] == quote)
          || (locator in content.cells && exists a, b :: 0 <= a <= b <= |content.cells[locator]| && content.cells[locator][a..b] == quote))
    else
      exists r, a, b :: r in t.chunks && t.chunks[r].document == document && t.chunks[r].chunk.locator == locator
                        && 0 <= a <= b <= |t.chunks[r].chunk.content| && t.chunks[r].chunk.content[a..b] == quote
  }

  lemma CurrentIsLately(t: Tables, document: Key, sha: string, now: Time)
    ensures SourceCurrent(t, document, sha, now) <==> LatelyVerified(t, document, sha, now)
  {
  }

  lemma QuotedStands(t: Tables, document: Key, sha: string, locator: string, quote: string)
    ensures Quoted(t.chunks, t.payloads, document, sha, locator, quote) <==> Stands(t, document, sha, locator, quote)
  {
    if document in t.payloads {
      SegmentsStand(t.payloads[document].content, locator, quote);
    } else {
      ChunksStand(t.chunks, document, locator, quote);
    }
  }

  lemma ChunksStand(chunks: map<RowId, ChunkRow>, document: Key, locator: string, quote: string)
    ensures ChunkQuotes(chunks, document, locator, quote)
            <==> exists r, a, b :: r in chunks && chunks[r].document == document && chunks[r].chunk.locator == locator
                                   && 0 <= a <= b <= |chunks[r].chunk.content| && chunks[r].chunk.content[a..b] == quote
  {
    if r, a, b :| r in chunks && chunks[r].document == document && chunks[r].chunk.locator == locator
                  && 0 <= a <= b <= |chunks[r].chunk.content| && chunks[r].chunk.content[a..b] == quote {
      assert Contains(chunks[r].chunk.content, quote);
    }
  }

  lemma SegmentsStand(content: Structured, locator: string, quote: string)
    ensures (exists i :: 0 <= i < |content.segments| && content.segments[i].locator == locator && Contains(content.segments[i].content, quote))
            <==> exists i, a, b :: 0 <= i < |content.segments| && content.segments[i].locator == locator
                                   && 0 <= a <= b <= |content.segments[i].content| && content.segments[i].content[a..b] == quote
    ensures locator in content.cells ==>
      (Contains(content.cells[locator], quote)
       <==> exists a, b :: 0 <= a <= b <= |content.cells[locator]| && content.cells[locator][a..b] == quote)
  {
    if i, a, b :| 0 <= i < |content.segments| && content.segments[i].locator == locator
                  && 0 <= a <= b <= |content.segments[i].content| && content.segments[i].content[a..b] == quote {
      assert Contains(content.segments[i].content, quote);
    }
  }

  /** A quote that a record in force may rest on. */
  ghost predicate Backed(t: Tables, document: Key, sha: string, locator: string, quote: string, now: Time) {
    LatelyVerified(t, document, sha, now) && Stands(t, document, sha, locator, quote)
  }

  lemma VerifiedIsBacked(t: Tables, document: Key, sha: string, locator: string, quote: string, now: Time)
    ensures Verifies(t, document, sha, locator, quote, now) <==> Backed(t, document, sha, locator, quote, now)
  {
    hide Quoted, Stands;
    CurrentIsLately(t, document, sha, now);
    QuotedStands(t, document, sha, locator, quote);
  }

  /** What a review or a correction asks for: an authorized reviewer, the revision that was seen, and every quote still there. */
  ghost predicate Reviewable(t: Tables, id: RecordId, revision: nat, authorized: bool, now: Time) {
    && authorized && id in t.records && t.records[id].revision == revision
    && (t.records[id].status.Proposed? || t.records[id].status.Confirmed?)
    && forall d :: d in t.dependencies && d.record == id ==> Backed(t, d.document, d.sha, d.locator, d.quote, now)
  }

  lemma ReviewableExactly(t: Tables, id: RecordId, revision: nat, authorized: bool, now: Time)
    ensures ReviewError(t, id, revision, authorized, now).None? <==> Reviewable(t, id, revision, authorized, now)
  {
    hide Backed, Verifies;
    forall d | d in t.dependencies && d.record == id
      ensures Verifies(t, d.document, d.sha, d.locator, d.quote, now) <==> Backed(t, d.document, d.sha, d.locator, d.quote, now)
    {
      VerifiedIsBacked(t, d.document, d.sha, d.locator, d.quote, now);
    }
  }

  /** These citations are the quotes of the record, each once, with the path of the document where it is known. */
  ghost predicate QuotesOf(t: Tables, id: RecordId, citations: seq<Citation>) {
    && (forall d :: d in t.dependencies && d.record == id ==>
          exists c :: c in citations && c.source == d.document && c.sha == d.sha && c.locator.body == d.locator && c.quote.body == d.quote)
    && (forall c :: c in citations ==> Dependency(id, c.source, c.sha, c.locator.body, c.quote.body) in t.dependencies)
    && (forall c :: c in citations && c.source in t.documents ==> c.path == t.documents[c.source].source)
    && (forall i, j :: 0 <= i < j < |citations| ==> citations[i] != citations[j])
  }

  lemma ListsQuotes(t: Tables, id: RecordId, citations: seq<Citation>)
    requires Lists(t, id, citations)
    ensures QuotesOf(t, id, citations)
  {
    forall d | d in t.dependencies && d.record == id
      ensures exists c :: c in citations && c.source == d.document && c.sha == d.sha && c.locator.body == d.locator && c.quote.body == d.quote
    {
      assert CitationOf(t, d) in citations;
    }
  }

  /**
   What a correction asks for besides: a revision number of 32 bits, acceptable content that differs,
   a record with quotes, and an identifier and a key that are still free.
   */
  ghost predicate Correctable(t: Tables, id: RecordId, revision: nat, content: Text, replacement: RecordId, authorized: bool, now: Time) {
    && 1 <= revision <= 0x7fff_ffff && Accept(content, 8000).Some?
    && Reviewable(t, id, revision, authorized, now) && Accept(content, 8000).value != t.records[id].content
    && (exists d :: d in t.dependencies && d.record == id)
    && replacement !in t.records
    && forall q :: q in t.records ==> t.records[q].idempotencyKey != "correction:" + id + ":" + Digits(revision)
  }

  lemma CorrectableExactly(t: Tables, id: RecordId, revision: nat, content: Text, replacement: RecordId, authorized: bool, now: Time)
    ensures CorrectionError(t, id, revision, content, replacement, authorized, now).None?
            <==> Correctable(t, id, revision, content, replacement, authorized, now)
  {
    hide Accept, ReviewError, Digits, CitedVersions, Backed;
    ReviewableExactly(t, id, revision, authorized, now);
    SomeVersionCited(t.dependencies, id);
  }

  lemma SomeVersionCited(dependencies: set<Dependency>, id: RecordId)
    ensures CitedVersions(dependencies, id) != {} <==> exists d :: d in dependencies && d.record == id
  {
    if d :| d in dependencies && d.record == id {
      assert (d.document, d.sha) in CitedVersions(dependencies, id);
    }
  }

  // ---------------------------------------------------------------- a proposal

  /** One record is new, proposed, at revision 1, with its quotes and one event; nothing else changes. */
  ghost predicate Files(t: Tables, u: Tables, s: Statement, key: string, id: RecordId) {
    && u == t.(records := u.records, dependencies := u.dependencies, events := u.events)
    && id !in t.records && id in u.records && u.records == t.records[id := u.records[id]]
    && (var r := u.records[id];
        && r.status.Proposed? && r.revision == 1 && r.idempotencyKey == key
        && r.kind == s.kind && r.entityType == s.entityType
        && Some(r.entityKey) == Accept(s.entityKey, 200) && Some(r.title) == Accept(s.title, 200)
        && Some(r.topic) == Accept(s.topic, 120) && Some(r.content) == Accept(s.content, 8000)
        && r.input == Body(s.kind, s.entityType, s.entityKey, s.title, r.topic, r.content, s.citations))
    && (forall d: Dependency :: d in u.dependencies <==>
          d in t.dependencies
          || (d.record == id && exists c :: c in s.citations && d.document == c.source && d.sha == c.sha
                                            && Some(d.locator) == Accept(c.locator, 500) && Some(d.quote) == Accept(c.quote, 4000)))
    && (forall e: Event :: u.events[e] == t.events[e] + if e == Event(id, 1, ProposedAction) then 1 else 0)
  }

  lemma ProposalEffect(t: Tables, s: Statement, key: string, id: RecordId, now: Time)
    requires JudgeProposal(t, s, key, id, now).New?
    ensures Files(t, AfterProposal(t, s, key, id, now), s, key, id)
  {
    hide Rejection, CorrectedBefore, KeyTaken, TransportKey, Accept, Verifies;
    var u, b := AfterProposal(t, s, key, id, now), BodyOf(s).value;
    assert forall c :: c in b.citations ==> CitationVerifies(t, c, now);
    QuotesAdded(t.dependencies, id, s.citations);
  }

  lemma QuotesAdded(dependencies: set<Dependency>, id: RecordId, citations: seq<Citation>)
    requires forall c :: c in citations ==> Accept(c.locator, 500).Some? && Accept(c.quote, 4000).Some?
    ensures forall d: Dependency :: d in dependencies + (set c | c in citations :: DependencyOf(id, c)) <==>
      d in dependencies
      || (d.record == id && exists c :: c in citations && d.document == c.source && d.sha == c.sha
                                        && Some(d.locator) == Accept(c.locator, 500) && Some(d.quote) == Accept(c.quote, 4000))
  {
    hide Accept;
    forall d: Dependency
      | d.record == id && (exists c :: c in citations && d.document == c.source && d.sha == c.sha
                                       && Some(d.locator) == Accept(c.locator, 500) && Some(d.quote) == Accept(c.quote, 4000))
      ensures d in set c | c in citations :: DependencyOf(id, c)
    {
      var c :| c in citations && d.document == c.source && d.sha == c.sha
               && Some(d.locator) == Accept(c.locator, 500) && Some(d.quote) == Accept(c.quote, 4000);
      assert d == DependencyOf(id, c);
    }
  }

  /** A known kind of entity, acceptable texts, one to twenty quotes, and a key of up to 160 plain characters. */
  predicate WellStated(s: Statement, key: string) {
    && s.entityType in {"employee", "customer", "supplier", "project", "process", "company", "document"}
    && Accept(s.entityKey, 200).Some? && Accept(s.title, 200).Some? && Accept(s.topic, 120).Some? && Accept(s.content, 8000).Some?
    && 1 <= |s.citations| <= 20 && 1 <= |key| <= 160
    && forall i :: 0 <= i < |key| ==> 'a' <= key[i] <= 'z' || 'A' <= key[i] <= 'Z' || '0' <= key[i] <= '9' || key[i] in "_.:-"
  }

  /** What identifies a proposal: topic and content trimmed, the rest as it was given. */
  function Submitted(s: Statement): Body
    requires Accept(s.topic, 120).Some? && Accept(s.content, 8000).Some?
  {
    Body(s.kind, s.entityType, s.entityKey, s.title, Accept(s.topic, 120).value, Accept(s.content, 8000).value, s.citations)
  }

  lemma WellStatedExactly(s: Statement, key: string)
    ensures Acceptable(s, key) <==> WellStated(s, key)
    ensures WellStated(s, key) ==> BodyOf(s) == Some(Submitted(s))
  {
    hide Accept;
  }

  /** A new statement is filed: no record has its key or its identifier, it was not rejected or corrected, and every quote is backed. */
  ghost predicate Fileable(t: Tables, s: Statement, key: string, id: RecordId, now: Time) {
    && WellStated(s, key) && id !in t.records
    && (forall r :: r in t.records ==> t.records[r].idempotencyKey != key)
    && (forall r :: r in t.records && t.records[r].input == Submitted(s) ==> !t.records[r].status.Rejected? && !t.records[r].status.Deleted?)
    && (forall c :: c in s.citations ==>
          && Accept(c.locator, 500).Some? && Accept(c.quote, 4000).Some?
          && Backed(t, c.source, c.sha, Accept(c.locator, 500).value, Accept(c.quote, 4000).value, now))
    && !CorrectedAway(t, Submitted(s))
  }

  /** The record says this, on exactly these source versions. */
  ghost predicate SaysOn(t: Tables, p: RecordId, b: Body) {
    && p in t.records
    && t.records[p].kind == b.kind && t.records[p].entityType == b.entityType && t.records[p].topic == b.topic
    && Some(t.records[p].entityKey) == Accept(b.entityKey, 200) && t.records[p].content == b.content
    && (forall d :: d in t.dependencies && d.record == p ==> exists q :: q in b.citations && (q.source, q.sha) == (d.document, d.sha))
    && (forall q :: q in b.citations ==> exists d :: d in t.dependencies && d.record == p && (q.source, q.sha) == (d.document, d.sha))
  }

  /** This statement, on exactly these source versions, is what some correction replaced. */
  ghost predicate CorrectedAway(t: Tables, b: Body) {
    exists c :: c in t.corrections && SaysOn(t, t.corrections[c].previous, b)
  }

  lemma SaysExactly(t: Tables, p: RecordId, b: Body)
    ensures p in t.records && SameStatement(t.records[p], b) && CitedVersions(t.dependencies, p) == StatedVersions(b) <==> SaysOn(t, p, b)
  {
    hide Accept, CitedVersions, StatedVersions;
    SameVersions(t.dependencies, p, b);
  }

  lemma CorrectedExactly(t: Tables, b: Body)
    ensures CorrectedBefore(t, b) <==> CorrectedAway(t, b)
  {
    hide SameStatement, CitedVersions, StatedVersions, SaysOn;
    forall c | c in t.corrections
      ensures var p := t.corrections[c].previous;
        p in t.records && SameStatement(t.records[p], b) && CitedVersions(t.dependencies, p) == StatedVersions(b) <==> SaysOn(t, p, b)
    {
      SaysExactly(t, t.corrections[c].previous, b);
    }
  }

  lemma SameVersions(dependencies: set<Dependency>, p: RecordId, b: Body)
    ensures CitedVersions(dependencies, p) == StatedVersions(b) <==>
      && (forall d :: d in dependencies && d.record == p ==> exists q :: q in b.citations && (q.source, q.sha) == (d.document, d.sha))
      && (forall q :: q in b.citations ==> exists d :: d in dependencies && d.record == p && (q.source, q.sha) == (d.document, d.sha))
  {
    if CitedVersions(dependencies, p) == StatedVersions(b) {
      forall d | d in dependencies && d.record == p ensures exists q :: q in b.citations && (q.source, q.sha) == (d.document, d.sha) {
        assert (d.document, d.sha) in StatedVersions(b);
      }
      forall q | q in b.citations ensures exists d :: d in dependencies && d.record == p && (q.source, q.sha) == (d.document, d.sha) {
        assert (q.source, q.sha) in CitedVersions(dependencies, p);
      }
    }
  }

  lemma FileableExactly(t: Tables, s: Statement, key: string, id: RecordId, now: Time)
    ensures JudgeProposal(t, s, key, id, now).New? <==> Fileable(t, s, key, id, now)
  {
    hide CorrectedBefore, TransportKey, Accept, Verifies, Backed;
    forall c | c in s.citations && Accept(c.locator, 500).Some? && Accept(c.quote, 4000).Some?
      ensures CitationVerifies(t, c, now) <==> Backed(t, c.source, c.sha, Accept(c.locator, 500).value, Accept(c.quote, 4000).value, now)
    {
      VerifiedIsBacked(t, c.source, c.sha, Accept(c.locator, 500).value, Accept(c.quote, 4000).value, now);
    }
    WellStatedExactly(s, key);
    hide CorrectedAway, BodyOf, WellStated;
    if WellStated(s, key) {
      CorrectedExactly(t, Submitted(s));
    }
  }
}
