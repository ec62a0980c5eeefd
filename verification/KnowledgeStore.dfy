/**
 The tables of one knowledge partition: documents with their indexed content, and the
 records derived from them. A document row is identified by its source key, which is
 unique and never changes. Digests are injective, so the digest of a proposal is the
 proposal itself. A transaction that raises leaves every table as it was.
 */
module KnowledgeStore {
  import opened Wrappers
  import opened SourceText

  type Key = string
  type RowId = nat
  type RecordId = string
  type Time = real

  const MAX_AGE: real := 86400.0
  const ENTITY_TYPES := {"employee", "customer", "supplier", "project", "process", "company", "document"}

  datatype Fingerprint = Fingerprint(bytes: nat, modified: string)
  datatype DocState = Pending | Indexed | Unreadable | Unsupported | Withdrawn
  datatype Reason = NoReason | FormatOrSize | SourceDeleted | AccessRevoked | ScopeChanged | Failure(code: string)
  datatype Document = Document(source: string, name: string, bytes: nat, modified: string, fingerprint: Fingerprint,
                               seenScan: string, lastSeen: Time, state: DocState, reason: Reason,
                               sha: Option<string>, indexedAt: Option<Time>)

  datatype Chunk = Chunk(locator: string, content: string)
  datatype ChunkRow = ChunkRow(document: Key, ordinal: nat, chunk: Chunk)
  datatype SearchRow = SearchRow(name: string, content: string, document: Key, chunk: RowId)
  datatype Version = Version(document: Key, sha: string, fingerprint: Fingerprint)

  // Structured content: text segments, the cells of row tables under the locator
  // (table:row:r:column:c) that addresses them, and whatever else the parser wrote.
  datatype Structured = Structured(segments: seq<Chunk>, cells: map<string, string>, rest: string)
  datatype Payload = Payload(sha: string, content: Structured)

  datatype Outcome = PresentOutcome | MissingOutcome | DeniedOutcome | UnavailableOutcome | OversizedOutcome
  datatype Check = Check(checkedAt: Time, verifiedAt: Option<Time>, outcome: Outcome, sha: Option<string>)
  datatype CheckResult =
    | Present(bytes: nat, modified: string, sha: string) | Missing | Denied | Unavailable
    | Oversized(bytes: nat, modified: string)

  datatype Kind = Fact | Summary | Insight | Decision
  datatype Status = Proposed | Confirmed | Rejected | Deleted | Superseded | Stale
  // A citation names its document by path; its key is what the path normalises to.
  datatype Citation = Citation(path: string, source: Key, sha: string, locator: Text, quote: Text)
  datatype Statement = Statement(kind: Kind, entityType: string, entityKey: Text, title: Text, topic: Text, content: Text,
                                 citations: seq<Citation>)
  // What the input digest is taken of: topic and content trimmed, the rest as given.
  datatype Body = Body(kind: Kind, entityType: string, entityKey: Text, title: Text, topic: string, content: string,
                       citations: seq<Citation>)
  datatype Record = Record(kind: Kind, entityType: string, entityKey: string, title: string, topic: string, content: string,
                           status: Status, revision: nat, idempotencyKey: string, input: Body)
  datatype Dependency = Dependency(record: RecordId, document: Key, sha: string, locator: string, quote: string)
  datatype Correction = Correction(previous: RecordId, previousRevision: nat)
  datatype Action =
    | ProposedAction | Confirm | Reject | Delete | SupersededAction | CorrectedAction | CorrectionConfirmed | SourceInvalidated
  datatype Event = Event(record: RecordId, revision: nat, action: Action)

  datatype Tables = Tables(documents: map<Key, Document>, chunks: map<RowId, ChunkRow>, nextRow: RowId, search: set<SearchRow>,
                           versions: set<Version>, payloads: map<Key, Payload>, checks: map<Key, Check>,
                           records: map<RecordId, Record>, dependencies: set<Dependency>,
                           corrections: map<RecordId, Correction>, events: multiset<Event>)

  const Empty := Tables(map[], map[], 0, {}, {}, map[], map[], map[], {}, map[], multiset{})

  datatype Error =
    | InvalidChunks | SourceVersionChanged | InvalidSourceCheck | InvalidStatement | IdempotencyConflict | RejectedTombstone
    | CitationUnavailable | CorrectedTombstone | IdentifierTaken | ReviewerRequired | RevisionConflict | NotReviewable
    | CorrectionUnchanged | VersionUnavailable | PartUnavailable

  predicate Active(s: Status) {
    s.Proposed? || s.Confirmed?
  }

  // ---------------------------------------------------------------- content and its removal

  /** The records still in force that cite a document. */
  function Citing(t: Tables, document: Key): set<RecordId> {
    set d | d in t.dependencies && d.document == document && d.record in t.records && Active(t.records[d.record].status) :: d.record
  }

  /** The same status and one more revision for a set of records. */
  function Moved(records: map<RecordId, Record>, ids: set<RecordId>, status: Status): map<RecordId, Record> {
    map r | r in records :: if r in ids then records[r].(status := status, revision := records[r].revision + 1) else records[r]
  }

  function MoveEvents(records: map<RecordId, Record>, ids: set<RecordId>, action: Action): set<Event> {
    set r | r in ids && r in records :: Event(r, records[r].revision + 1, action)
  }

  function SearchWithout(search: set<SearchRow>, document: Key): set<SearchRow> {
    set s | s in search && s.document != document
  }

  function ChunksWithout(chunks: map<RowId, ChunkRow>, document: Key): map<RowId, ChunkRow> {
    map r | r in chunks && chunks[r].document != document :: chunks[r]
  }

  function RemoveContent(t: Tables, document: Key): Tables {
    var citing := Citing(t, document);
    t.(checks := t.checks - {document},
       events := t.events + multiset(MoveEvents(t.records, citing, SourceInvalidated)),
       records := Moved(t.records, citing, Stale),
       payloads := t.payloads - {document},
       search := SearchWithout(t.search, document),
       chunks := ChunksWithout(t.chunks, document))
  }

  // ---------------------------------------------------------------- index_document

  predicate ChunksAcceptable(chunks: seq<Chunk>, screened: bool) {
    && 0 < |chunks| <= 2000 && screened
    && forall i :: 0 <= i < |chunks| ==> 0 < |chunks[i].locator| <= 500 && !Blank(chunks[i].content)
  }

  /** The rows inserted for a list of chunks, numbered from `base` on. */
  function RowsOf(document: Key, chunks: seq<Chunk>, base: RowId): (rows: map<RowId, ChunkRow>)
    ensures forall r: RowId :: r in rows <==> base <= r < base + |chunks|
    ensures forall r: RowId :: r in rows ==> rows[r] == ChunkRow(document, r - base, chunks[r - base])
  {
    if chunks == [] then map[]
    else
      var last := |chunks| - 1;
      RowsOf(document, chunks[..last], base)[base + last := ChunkRow(document, last, chunks[last])]
  }

  function SearchRowsOf(name: string, document: Key, chunks: seq<Chunk>, base: RowId): (rows: set<SearchRow>)
    ensures forall s :: s in rows <==>
      s.name == name && s.document == document && base <= s.chunk < base + |chunks| && s.content == chunks[s.chunk - base].content
  {
    if chunks == [] then {}
    else
      var last := |chunks| - 1;
      SearchRowsOf(name, document, chunks[..last], base) + {SearchRow(name, chunks[last].content, document, base + last)}
  }

  /** Some row of the document holds this ordinal. */
  predicate HasOrdinal(chunks: map<RowId, ChunkRow>, document: Key, ordinal: nat) {
    exists r :: r in chunks && chunks[r].document == document && chunks[r].ordinal == ordinal
  }

  /** The chunks of a document, read in the order of their ordinals, are exactly `content`. */
  predicate HasContent(chunks: map<RowId, ChunkRow>, document: Key, content: seq<Chunk>) {
    && (forall r :: r in chunks && chunks[r].document == document ==>
          chunks[r].ordinal < |content| && chunks[r].chunk == content[chunks[r].ordinal])
    && (forall i: nat :: i < |content| ==> HasOrdinal(chunks, document, i))
    && (forall r, q :: r in chunks && q in chunks && chunks[r].document == document && chunks[q].document == document
          && chunks[r].ordinal == chunks[q].ordinal
          ==> r == q)
  }

  function RowIds(chunks: map<RowId, ChunkRow>, document: Key): set<RowId> {
    set r | r in chunks && chunks[r].document == document
  }

  /** Part `part` of `parts` of the indexed version of a document is this chunk. */
  predicate Reads(t: Tables, key: Key, sha: string, part: nat, parts: nat, chunk: Chunk) {
    && 1 <= part <= 2000 && key in t.documents && t.documents[key].state.Indexed? && t.documents[key].sha == Some(sha)
    && parts == |RowIds(t.chunks, key)|
    && exists r :: r in t.chunks && t.chunks[r].document == key && t.chunks[r].ordinal == part - 1 && t.chunks[r].chunk == chunk
  }

  predicate Indexable(documents: map<Key, Document>, key: Key, expected: Fingerprint) {
    key in documents && documents[key].fingerprint == expected
    && (documents[key].state.Pending? || documents[key].state.Indexed? || documents[key].state.Unreadable?)
  }

  function Stored(payloads: map<Key, Payload>, key: Key): Option<Structured> {
    if key in payloads then Some(payloads[key].content) else None
  }

  /** Content that is already there, row for row; indexing it again does nothing. */
  predicate AlreadyIndexed(t: Tables, key: Key, sha: string, chunks: seq<Chunk>, structured: Option<Structured>)
    requires key in t.documents
  {
    t.documents[key].state.Indexed? && t.documents[key].sha == Some(sha) && HasContent(t.chunks, key, chunks)
    && Stored(t.payloads, key) == structured
  }

  function WithContent(t: Tables, key: Key, sha: string, chunks: seq<Chunk>, structured: Option<Structured>,
                       now: Time): Tables
    requires key in t.documents
  {
    var d := t.documents[key];
    t.(payloads := if structured.Some? then t.payloads[key := Payload(sha, structured.value)] else t.payloads,
       chunks := t.chunks + RowsOf(key, chunks, t.nextRow),
       nextRow := t.nextRow + |chunks|,
       search := t.search + SearchRowsOf(d.name, key, chunks, t.nextRow),
       versions := t.versions + {Version(key, sha, d.fingerprint)},
       documents := t.documents[key := d.(state := Indexed, reason := NoReason, sha := Some(sha), indexedAt := Some(now))])
  }

  function Reindexed(t: Tables, key: Key, sha: string, chunks: seq<Chunk>, structured: Option<Structured>,
                     now: Time): Tables
    requires key in t.documents
  {
    if AlreadyIndexed(t, key, sha, chunks, structured) then t
    else WithContent(RemoveContent(t, key), key, sha, chunks, structured, now)
  }

  // ---------------------------------------------------------------- withdraw, source checks, observed files

  function Unindexed(d: Document, state: DocState, reason: Reason): Document {
    d.(state := state, reason := reason, sha := None, indexedAt := None)
  }

  function Withdraw(t: Tables, key: Key, reason: Reason): Tables {
    if key !in t.documents then t
    else RemoveContent(t, key).(documents := t.documents[key := Unindexed(t.documents[key], Withdrawn, reason)])
  }

  function ResultSha(r: CheckResult): Option<string> {
    if r.Present? then Some(r.sha) else None
  }

  predicate CheckAcceptable(r: CheckResult, maxBytes: nat) {
    (r.Present? ==> r.bytes <= maxBytes) && (r.Oversized? ==> r.bytes > maxBytes)
  }

  predicate Changed(d: Document, r: CheckResult)
    requires r.Present? || r.Oversized?
  {
    Fingerprint(r.bytes, r.modified) != d.fingerprint || ResultSha(r) != d.sha || d.state.Withdrawn?
  }

  /** What the check row carries over from before: the last verification, or the indexing itself. */
  function CarriedCheck(t: Tables, key: Key, now: Time, outcome: Outcome): Check
    requires key in t.documents
  {
    if key in t.checks then Check(now, t.checks[key].verifiedAt, outcome, t.checks[key].sha)
    else Check(now, t.documents[key].indexedAt, outcome, t.documents[key].sha)
  }

  function SourceChecked(t: Tables, key: Key, r: CheckResult, now: Time): Tables
    requires key in t.documents
  {
    var d := t.documents[key];
    match r
    case Missing => WithCheck(Withdraw(t, key, SourceDeleted), key, Check(now, None, MissingOutcome, None))
    case Denied => WithCheck(Withdraw(t, key, AccessRevoked), key, Check(now, None, DeniedOutcome, None))
    case Unavailable => WithCheck(t, key, CarriedCheck(t, key, now, UnavailableOutcome))
    case Present(bytes, modified, sha) =>
      WithCheck(if Changed(d, r) then NewVersion(t, key, bytes, modified, now, Pending, NoReason) else t, key,
                Check(now, Some(now), PresentOutcome, Some(sha)))
    case Oversized(bytes, modified) =>
      WithCheck(if Changed(d, r) then NewVersion(t, key, bytes, modified, now, Unsupported, FormatOrSize) else t, key,
                Check(now, None, OversizedOutcome, None))
  }

  function WithCheck(t: Tables, key: Key, c: Check): Tables {
    t.(checks := t.checks[key := c])
  }

  function NewVersion(t: Tables, key: Key, bytes: nat, modified: string, now: Time, state: DocState,
                      reason: Reason): Tables
    requires key in t.documents
  {
    RemoveContent(t, key).(documents := t.documents[key :=
      Unindexed(t.documents[key], state, reason).(bytes := bytes, modified := modified,
                                                  fingerprint := Fingerprint(bytes, modified), lastSeen := now)])
  }

  // One file of a recorded directory page.
  datatype Entry = Entry(key: Key, source: string, name: string, formatRead: bool, bytes: nat, modified: string)

  function Observed(t: Tables, e: Entry, scan: string, now: Time, maxBytes: nat): Tables {
    var version := Fingerprint(e.bytes, e.modified);
    var supported := e.formatRead && e.bytes <= maxBytes;
    var state, reason := if supported then Pending else Unsupported, if supported then NoReason else FormatOrSize;
    if e.key !in t.documents then
      t.(documents := t.documents[e.key := Document(e.source, e.name, e.bytes, e.modified, version, scan, now, state, reason, None, None)])
    else
      var d := t.documents[e.key];
      var same := d.fingerprint == version;
      var held := d.state.Withdrawn? && (d.reason.AccessRevoked? || d.reason.ScopeChanged?);
      var row := Document(e.source, e.name, e.bytes, e.modified, version, scan, now,
                          if held then Withdrawn else if same && !d.state.Withdrawn? then d.state else state,
                          if held || same then d.reason else reason,
                          if same then d.sha else None,
                          if same then d.indexedAt else None);
      (if same then t else RemoveContent(t, e.key)).(documents := t.documents[e.key := row])
  }

  /** Ingestion moves a document that has no content between its waiting states. */
  predicate Waiting(s: DocState) {
    s.Pending? || s.Unreadable? || s.Unsupported?
  }

  function Reclassified(t: Tables, key: Key, state: DocState, reason: Reason): Tables {
    if key in t.documents && Waiting(t.documents[key].state) && Waiting(state)
    then t.(documents := t.documents[key := t.documents[key].(state := state, reason := reason)]) else t
  }

  // ---------------------------------------------------------------- citations

  predicate Contains(content: string, quote: string) {
    exists i, j :: 0 <= i <= j <= |content| && content[i..j] == quote
  }

  predicate PayloadQuotes(p: Payload, locator: string, quote: string) {
    || (exists i :: 0 <= i < |p.content.segments| && p.content.segments[i].locator == locator
                    && Contains(p.content.segments[i].content, quote))
    || (locator in p.content.cells && Contains(p.content.cells[locator], quote))
  }

  predicate ChunkQuotes(chunks: map<RowId, ChunkRow>, key: Key, locator: string, quote: string) {
    exists r :: r in chunks && chunks[r].document == key && chunks[r].chunk.locator == locator && Contains(chunks[r].chunk.content, quote)
  }

  predicate Quoted(chunks: map<RowId, ChunkRow>, payloads: map<Key, Payload>, key: Key, sha: string, locator: string,
                   quote: string) {
    if key in payloads then payloads[key].sha == sha && PayloadQuotes(payloads[key], locator, quote)
    else ChunkQuotes(chunks, key, locator, quote)
  }

  predicate SourceCurrent(t: Tables, key: Key, sha: string, now: Time) {
    && key in t.documents && t.documents[key].state.Indexed? && t.documents[key].sha == Some(sha)
    && var verified := if key in t.checks then t.checks[key].verifiedAt else t.documents[key].indexedAt;
       verified.Some? && (key in t.checks ==> t.checks[key].sha == Some(sha)) && 0.0 <= now - verified.value <= MAX_AGE
  }

  /** A quote that is in the indexed version of its document, whose source was checked lately. */
  predicate Verifies(t: Tables, key: Key, sha: string, locator: string, quote: string, now: Time) {
    && key in t.documents && t.documents[key].state.Indexed? && t.documents[key].sha == Some(sha)
    && SourceCurrent(t, key, sha, now)
    && Quoted(t.chunks, t.payloads, key, sha, locator, quote)
  }

  predicate CitationVerifies(t: Tables, c: Citation, now: Time) {
    && Accept(c.locator, 500).Some? && Accept(c.quote, 4000).Some?
    && Verifies(t, c.source, c.sha, Accept(c.locator, 500).value, Accept(c.quote, 4000).value, now)
  }

  function DependencyOf(record: RecordId, c: Citation): Dependency
    requires Accept(c.locator, 500).Some? && Accept(c.quote, 4000).Some?
  {
    Dependency(record, c.source, c.sha, Accept(c.locator, 500).value, Accept(c.quote, 4000).value)
  }

  // ---------------------------------------------------------------- propose

  /** The body of a statement the program accepts, with topic and content trimmed. */
  function BodyOf(s: Statement): Option<Body> {
    var topic, content := Accept(s.topic, 120), Accept(s.content, 8000);
    if s.entityType in ENTITY_TYPES && Accept(s.entityKey, 200).Some? && Accept(s.title, 200).Some? && topic.Some? && content.Some?
       && 1 <= |s.citations| <= 20
    then Some(Body(s.kind, s.entityType, s.entityKey, s.title, topic.value, content.value, s.citations)) else None
  }

  predicate TransportKey(key: string) {
    1 <= |key| <= 160
    && forall i :: 0 <= i < |key| ==> 'a' <= key[i] <= 'z' || 'A' <= key[i] <= 'Z' || '0' <= key[i] <= '9' || key[i] in "_.:-"
  }

  predicate Acceptable(s: Statement, key: string) {
    BodyOf(s).Some? && TransportKey(key)
  }

  predicate KeyTaken(records: map<RecordId, Record>, key: string) {
    exists r :: r in records && records[r].idempotencyKey == key
  }

  predicate Rejection(records: map<RecordId, Record>, b: Body) {
    exists r :: r in records && records[r].input == b && (records[r].status.Rejected? || records[r].status.Deleted?)
  }

  function CitedVersions(dependencies: set<Dependency>, record: RecordId): set<(Key, string)> {
    set d | d in dependencies && d.record == record :: (d.document, d.sha)
  }

  function StatedVersions(b: Body): set<(Key, string)> {
    set c | c in b.citations :: (c.source, c.sha)
  }

  predicate SameStatement(r: Record, b: Body) {
    r.kind == b.kind && r.entityType == b.entityType && Some(r.entityKey) == Accept(b.entityKey, 200)
    && r.topic == b.topic && r.content == b.content
  }

  /** The statement was corrected before, on these same source versions. */
  predicate CorrectedBefore(t: Tables, b: Body) {
    exists c :: c in t.corrections && t.corrections[c].previous in t.records
      && SameStatement(t.records[t.corrections[c].previous], b)
      && CitedVersions(t.dependencies, t.corrections[c].previous) == StatedVersions(b)
  }

  datatype Proposal = Existing | New | Refused(error: Error)

  function JudgeProposal(t: Tables, s: Statement, key: string, id: RecordId, now: Time): Proposal {
    if !Acceptable(s, key) then Refused(InvalidStatement)
    else
      var b := BodyOf(s).value;
      if KeyTaken(t.records, key) then
        if (exists r :: r in t.records && t.records[r].idempotencyKey == key && t.records[r].input == b) then Existing
        else Refused(IdempotencyConflict)
      else if Rejection(t.records, b) then Refused(RejectedTombstone)
      else if exists c :: c in b.citations && !CitationVerifies(t, c, now) then Refused(CitationUnavailable)
      else if CorrectedBefore(t, b) then Refused(CorrectedTombstone)
      else if id in t.records then Refused(IdentifierTaken)
      else New
  }

  function NewRecord(b: Body, key: string): Record
    requires Accept(b.entityKey, 200).Some? && Accept(b.title, 200).Some?
  {
    Record(b.kind, b.entityType, Accept(b.entityKey, 200).value, Accept(b.title, 200).value, b.topic, b.content, Proposed, 1, key, b)
  }

  function WithProposal(t: Tables, id: RecordId, b: Body, key: string): Tables
    requires Accept(b.entityKey, 200).Some? && Accept(b.title, 200).Some?
    requires forall c :: c in b.citations ==> Accept(c.locator, 500).Some? && Accept(c.quote, 4000).Some?
  {
    t.(records := t.records[id := NewRecord(b, key)],
       dependencies := t.dependencies + (set c | c in b.citations :: DependencyOf(id, c)),
       events := t.events + multiset{Event(id, 1, ProposedAction)})
  }

  function AfterProposal(t: Tables, s: Statement, key: string, id: RecordId, now: Time): Tables {
    if JudgeProposal(t, s, key, id, now).New? then WithProposal(t, id, BodyOf(s).value, key) else t
  }

  // ---------------------------------------------------------------- review and correct

  /** All the citations of a record still verify; otherwise it reads as stale. */
  predicate StillCited(t: Tables, id: RecordId, now: Time) {
    forall d :: d in t.dependencies && d.record == id ==> Verifies(t, d.document, d.sha, d.locator, d.quote, now)
  }

  /** Why a record cannot be reviewed or corrected, if it cannot. */
  function ReviewError(t: Tables, id: RecordId, expected: nat, authorized: bool, now: Time): Option<Error> {
    if !authorized then Some(ReviewerRequired)
    else if id !in t.records || t.records[id].revision != expected then Some(RevisionConflict)
    else if !Active(t.records[id].status) || !StillCited(t, id, now) then Some(NotReviewable)
    else None
  }

  predicate SameQuestion(a: Record, b: Record) {
    a.kind == b.kind && a.entityType == b.entityType && a.entityKey == b.entityKey && a.topic == b.topic
  }

  /** The other confirmed answers to the same question. */
  function Rivals(records: map<RecordId, Record>, id: RecordId): set<RecordId>
    requires id in records
  {
    set r | r in records && r != id && records[r].status.Confirmed? && SameQuestion(records[r], records[id])
  }

  datatype Decision = ToConfirm | ToReject | ToDelete

  function DecisionStatus(d: Decision): Status {
    match d case ToConfirm => Confirmed case ToReject => Rejected case ToDelete => Deleted
  }

  function DecisionAction(d: Decision): Action {
    match d case ToConfirm => Confirm case ToReject => Reject case ToDelete => Delete
  }

  function Superseding(t: Tables, ids: set<RecordId>): Tables {
    t.(events := t.events + multiset(MoveEvents(t.records, ids, SupersededAction)), records := Moved(t.records, ids, Superseded))
  }

  function Decided(t: Tables, id: RecordId, action: Action, status: Status): Tables
    requires id in t.records
  {
    t.(records := t.records[id := t.records[id].(status := status, revision := t.records[id].revision + 1)],
       events := t.events + multiset{Event(id, t.records[id].revision + 1, action)})
  }

  function Reviewed(t: Tables, id: RecordId, d: Decision): Tables
    requires id in t.records
  {
    Decided(if d.ToConfirm? then Superseding(t, Rivals(t.records, id)) else t, id, DecisionAction(d), DecisionStatus(d))
  }

  function AfterReview(t: Tables, id: RecordId, expected: nat, d: Decision, authorized: bool, now: Time): Tables {
    if ReviewError(t, id, expected, authorized, now).None? then Reviewed(t, id, d) else t
  }

  function Digits(n: nat): string {
    if n < 10 then [('0' as int + n) as char] else Digits(n / 10) + [('0' as int + n % 10) as char]
  }

  function CorrectionKey(id: RecordId, revision: nat): string {
    "correction:" + id + ":" + Digits(revision)
  }

  function CitationOf(t: Tables, d: Dependency): Citation {
    Citation(if d.document in t.documents then t.documents[d.document].source else "", d.document, d.sha,
             Text(d.locator, false), Text(d.quote, false))
  }

  function Cited(id: RecordId, c: Citation): Dependency {
    Dependency(id, c.source, c.sha, c.locator.body, c.quote.body)
  }

  /** The citations of a record, each once, in some order of the database. */
  predicate Lists(t: Tables, id: RecordId, citations: seq<Citation>) {
    && (forall d :: d in t.dependencies && d.record == id ==> CitationOf(t, d) in citations)
    && (forall c :: c in citations ==>
          Cited(id, c) in t.dependencies && c == CitationOf(t, Cited(id, c)))
    && (forall i, j :: 0 <= i < j < |citations| ==> citations[i] != citations[j])
  }

  function CorrectionError(t: Tables, id: RecordId, expected: nat, content: Text, replacement: RecordId,
                           authorized: bool,
                           now: Time): Option<Error>
  {
    if !(1 <= expected <= 0x7fff_ffff) || Accept(content, 8000).None? then Some(InvalidStatement)
    else if ReviewError(t, id, expected, authorized, now).Some? then ReviewError(t, id, expected, authorized, now)
    else if Accept(content, 8000).value == t.records[id].content then Some(CorrectionUnchanged)
    else if CitedVersions(t.dependencies, id) == {} then Some(CitationUnavailable)
    else if replacement in t.records || KeyTaken(t.records, CorrectionKey(id, expected)) then Some(IdentifierTaken)
    else None
  }

  /** The replacement of a corrected record: same question, new content, the same quotes. */
  function Replacement(r: Record, id: RecordId, content: string, citations: seq<Citation>): Record {
    r.(content := content, status := Confirmed, revision := 1, idempotencyKey := CorrectionKey(id, r.revision),
       input := Body(r.kind, r.entityType, Text(r.entityKey, false), Text(r.title, false), r.topic, content, citations))
  }

  function CopiedDependencies(dependencies: set<Dependency>, id: RecordId, replacement: RecordId): set<Dependency> {
    set d | d in dependencies && d.record == id :: d.(record := replacement)
  }

  function Corrected(t: Tables, id: RecordId, replacement: RecordId, content: string, citations: seq<Citation>): Tables
    requires id in t.records
  {
    var moved := Decided(Superseding(t, Rivals(t.records, id)), id, CorrectedAction, Superseded);
    moved.(records := moved.records[replacement := Replacement(t.records[id], id, content, citations)],
           dependencies := t.dependencies + CopiedDependencies(t.dependencies, id, replacement),
           corrections := t.corrections[replacement := Correction(id, t.records[id].revision)],
           events := moved.events + multiset{Event(replacement, 1, CorrectionConfirmed)})
  }

  function AfterCorrection(t: Tables, id: RecordId, expected: nat, content: Text, replacement: RecordId,
                           citations: seq<Citation>,
                           authorized: bool, now: Time): Tables
  {
    if CorrectionError(t, id, expected, content, replacement, authorized, now).None? && Lists(t, id, citations)
    then Corrected(t, id, replacement, Accept(content, 8000).value, citations) else t
  }
}
