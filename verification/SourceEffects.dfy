/**
 What the operations on sources do to a store, table by table: the effects that the specification
 functions amount to.
 */
module SourceEffects {
  import opened Wrappers
  import opened SourceText
  import opened KnowledgeStore
  import opened KnowledgeRuns
  import opened RecordEffects

  /** Only the row of this document may differ, and only its check. */
  ghost predicate OnlyRow(t: Tables, u: Tables, k: Key) {
    && u.documents.Keys == t.documents.Keys + {k}
    && (forall q :: q in t.documents && q != k ==> u.documents[q] == t.documents[q])
    && (forall q :: q != k ==> (q in u.checks <==> q in t.checks))
    && (forall q :: q != k && q in t.checks ==> u.checks[q] == t.checks[q])
  }

  /** What was read from the document is gone, with its search rows, and the records that cite it are stale. */
  ghost predicate Gone(t: Tables, u: Tables, k: Key) {
    Invalidates(t, u, k) && ForgetsContent(t, u, k)
  }

  /** Contents and records are as they were. */
  ghost predicate Untouched(t: Tables, u: Tables) {
    u == t.(documents := u.documents, checks := u.checks)
  }

  lemma RemovalGone(t: Tables, k: Key, documents: map<Key, Document>, checks: map<Key, Check>)
    ensures Gone(t, RemoveContent(t, k).(documents := documents, checks := checks), k)
  {
    hide Invalid, NextEvent, RemoveContent;
    RemovalInvalidates(t, k);
  }

  lemma RemovalKeepsOthers(t: Tables, k: Key)
    ensures RemoveContent(t, k).checks == t.checks - {k} && RemoveContent(t, k).documents == t.documents
  {
  }

  // ---------------------------------------------------------------- a source check

  /** The source changed under the row: another size or time, another digest, or a row that was withdrawn. */
  predicate Differs(d: Document, bytes: nat, modified: string, sha: Option<string>) {
    d.fingerprint.bytes != bytes || d.fingerprint.modified != modified || d.sha != sha || d.state.Withdrawn?
  }

  /** A check that leaves the source as it was indexed. */
  predicate KeepsContent(d: Document, r: CheckResult) {
    match r
    case Missing => false
    case Denied => false
    case Unavailable => true
    case Present(bytes, modified, sha) => !Differs(d, bytes, modified, Some(sha))
    case Oversized(bytes, modified) => !Differs(d, bytes, modified, None)
  }

  /**
   Row and check after an accepted check. A source that is gone or denied is withdrawn, with nothing
   verified. An unavailable one keeps its row and its last verification. One that changed waits under
   its new fingerprint; one that did not keeps its row, verified now.
   */
  predicate RowCheckedAs(t: Tables, u: Tables, k: Key, r: CheckResult, now: Time)
    requires k in t.documents
  {
    && k in u.documents && k in u.checks && u.checks[k].checkedAt == now
    && var d, row, c := t.documents[k], u.documents[k], u.checks[k];
    match r
    case Missing =>
      && row == d.(state := Withdrawn, reason := SourceDeleted, sha := None, indexedAt := None)
      && c.outcome.MissingOutcome? && c.verifiedAt.None? && c.sha.None?
    case Denied =>
      && row == d.(state := Withdrawn, reason := AccessRevoked, sha := None, indexedAt := None)
      && c.outcome.DeniedOutcome? && c.verifiedAt.None? && c.sha.None?
    case Unavailable =>
      && row == d && c.outcome.UnavailableOutcome?
      && c.verifiedAt == (if k in t.checks then t.checks[k].verifiedAt else d.indexedAt)
      && c.sha == (if k in t.checks then t.checks[k].sha else d.sha)
    case Present(bytes, modified, sha) =>
      && c.outcome.PresentOutcome? && c.verifiedAt == Some(now) && c.sha == Some(sha)
      && row == if Differs(d, bytes, modified, Some(sha)) then
                  d.(state := Pending, reason := NoReason, sha := None, indexedAt := None, bytes := bytes, modified := modified,
                     fingerprint := Fingerprint(bytes, modified), lastSeen := now)
                else d
    case Oversized(bytes, modified) =>
      && c.outcome.OversizedOutcome? && c.verifiedAt.None? && c.sha.None?
      && row == if Differs(d, bytes, modified, None) then
                  d.(state := Unsupported, reason := FormatOrSize, sha := None, indexedAt := None, bytes := bytes, modified := modified,
                     fingerprint := Fingerprint(bytes, modified), lastSeen := now)
                else d
  }

  /** After an accepted check: row and check as above, the content gone unless the source is as it was, and nothing else changed. */
  ghost predicate CheckedAs(t: Tables, u: Tables, k: Key, r: CheckResult, now: Time)
    requires k in t.documents
  {
    && OnlyRow(t, u, k) && RowCheckedAs(t, u, k, r, now)
    && if KeepsContent(t.documents[k], r) then Untouched(t, u) else Gone(t, u, k)
  }

  lemma CheckEffect(t: Tables, k: Key, r: CheckResult, now: Time)
    requires k in t.documents
    ensures CheckedAs(t, SourceChecked(t, k, r, now), k, r, now)
  {
    hide RemoveContent, Gone, OnlyRow, Untouched;
    CheckOnlyRow(t, k, r, now);
    CheckContent(t, k, r, now);
  }

  lemma CheckOnlyRow(t: Tables, k: Key, r: CheckResult, now: Time)
    requires k in t.documents
    ensures var u := SourceChecked(t, k, r, now); OnlyRow(t, u, k) && k in u.checks
  {
    hide OnlyRow, SourceChecked;
    CheckScope(t, k, r, now);
    OneRowIsOnly(t, SourceChecked(t, k, r, now), k);
  }

  /** A check changes its own document's row and check, and no other's. */
  lemma CheckScope(t: Tables, k: Key, r: CheckResult, now: Time)
    requires k in t.documents
    ensures var u := SourceChecked(t, k, r, now);
      k in u.documents && k in u.checks && u.documents == t.documents[k := u.documents[k]] && u.checks == t.checks[k := u.checks[k]]
  {
    hide RemoveContent, Changed, CarriedCheck;
    RemovalKeepsOthers(t, k);
  }

  lemma OneRowIsOnly(t: Tables, u: Tables, k: Key)
    requires k in u.documents && k in u.checks
    requires u.documents == t.documents[k := u.documents[k]] && u.checks == t.checks[k := u.checks[k]]
    ensures OnlyRow(t, u, k)
  {
  }

  lemma CheckContent(t: Tables, k: Key, r: CheckResult, now: Time)
    requires k in t.documents
    ensures var u := SourceChecked(t, k, r, now);
      if r.Missing? || r.Denied? || ((r.Present? || r.Oversized?) && Changed(t.documents[k], r)) then Gone(t, u, k) else Untouched(t, u)
  {
    hide RemoveContent, Gone, Changed;
    var u := SourceChecked(t, k, r, now);
    RemovalGone(t, k, u.documents, u.checks);
    RemovalKeepsOthers(t, k);
  }

  // ---------------------------------------------------------------- a withdrawal

  /** A known document keeps its row, withdrawn for this reason, and loses its content and its check. */
  ghost predicate WithdrawnAs(t: Tables, u: Tables, k: Key, reason: Reason) {
    if k !in t.documents then u == t
    else
      && OnlyRow(t, u, k) && k !in u.checks && Gone(t, u, k)
      && u.documents[k] == t.documents[k].(state := Withdrawn, reason := reason, sha := None, indexedAt := None)
  }

  lemma WithdrawEffect(t: Tables, k: Key, reason: Reason)
    ensures WithdrawnAs(t, Withdraw(t, k, reason), k, reason)
  {
    hide RemoveContent, Gone;
    var u := Withdraw(t, k, reason);
    RemovalGone(t, k, u.documents, u.checks);
    RemovalKeepsOthers(t, k);
  }

  // ---------------------------------------------------------------- a file that a scan sees

  /** A row whose withdrawal a scan may not undo. */
  predicate Held(d: Document) {
    d.state.Withdrawn? && (d.reason.AccessRevoked? || d.reason.ScopeChanged?)
  }

  /**
   A new file gets a row. A known one keeps content, digest and state under the same fingerprint;
   under another it loses content, check and digest and waits to be read again. A row that was
   withdrawn for want of access or scope stays withdrawn in either case.
   */
  ghost predicate SeenAs(t: Tables, u: Tables, e: Entry, scan: string, now: Time, maxBytes: nat) {
    && OnlyRow(t, u, e.key)
    && var row := u.documents[e.key];
    && row.source == e.source && row.name == e.name && row.bytes == e.bytes && row.modified == e.modified
    && row.fingerprint == Fingerprint(e.bytes, e.modified) && row.seenScan == scan && row.lastSeen == now
    && var readable := e.formatRead && e.bytes <= maxBytes;
    if e.key !in t.documents then
      && Untouched(t, u) && u.checks == t.checks && row.sha.None? && row.indexedAt.None?
      && (if readable then row.state.Pending? && row.reason.NoReason? else row.state.Unsupported? && row.reason.FormatOrSize?)
    else
      var d := t.documents[e.key];
      && (Held(d) ==> row.state.Withdrawn? && row.reason == d.reason)
      && if d.fingerprint == Fingerprint(e.bytes, e.modified) then
           && Untouched(t, u) && u.checks == t.checks && row.sha == d.sha && row.indexedAt == d.indexedAt && row.reason == d.reason
           && (!d.state.Withdrawn? ==> row.state == d.state)
           && (d.state.Withdrawn? && !Held(d) ==> if readable then row.state.Pending? else row.state.Unsupported?)
         else
           && Gone(t, u, e.key) && e.key !in u.checks && row.sha.None? && row.indexedAt.None?
           && (!Held(d) ==> if readable then row.state.Pending? && row.reason.NoReason? else row.state.Unsupported? && row.reason.FormatOrSize?)
  }

  lemma ObservedEffect(t: Tables, e: Entry, scan: string, now: Time, maxBytes: nat)
    ensures SeenAs(t, Observed(t, e, scan, now, maxBytes), e, scan, now, maxBytes)
  {
    hide RemoveContent, Gone, OnlyRow, Untouched, Held;
    var u := Observed(t, e, scan, now, maxBytes);
    ObservedRow(t, e, scan, now, maxBytes);
    ObservedContent(t, e, scan, now, maxBytes);
  }

  lemma ObservedRow(t: Tables, e: Entry, scan: string, now: Time, maxBytes: nat)
    ensures var u := Observed(t, e, scan, now, maxBytes);
      && OnlyRow(t, u, e.key)
      && (e.key in t.documents && Held(t.documents[e.key]) ==>
            u.documents[e.key].state.Withdrawn? && u.documents[e.key].reason == t.documents[e.key].reason)
      && (e.key in t.documents && !Held(t.documents[e.key]) ==>
            !(t.documents[e.key].state.Withdrawn? && (t.documents[e.key].reason.AccessRevoked? || t.documents[e.key].reason.ScopeChanged?)))
  {
    hide RemoveContent;
    RemovalKeepsOthers(t, e.key);
  }

  lemma ObservedContent(t: Tables, e: Entry, scan: string, now: Time, maxBytes: nat)
    ensures var u := Observed(t, e, scan, now, maxBytes);
      if e.key in t.documents && t.documents[e.key].fingerprint != Fingerprint(e.bytes, e.modified)
      then Gone(t, u, e.key) && e.key !in u.checks else Untouched(t, u) && u.checks == t.checks
  {
    hide RemoveContent, Gone;
    var u := Observed(t, e, scan, now, maxBytes);
    RemovalGone(t, e.key, u.documents, u.checks);
    RemovalKeepsOthers(t, e.key);
  }

  // ---------------------------------------------------------------- content that is indexed

  /** The chunk rows of the document are the given chunks, numbered in order; those of others are as they were. */
  ghost predicate ChunksAs(t: Tables, u: Tables, k: Key, content: seq<Chunk>) {
    && u.nextRow == t.nextRow + |content|
    && (forall r :: r in t.chunks && t.chunks[r].document != k && r < t.nextRow ==> r in u.chunks && u.chunks[r] == t.chunks[r])
    && (forall r :: r in u.chunks && u.chunks[r].document != k ==> r in t.chunks && u.chunks[r] == t.chunks[r])
    && (forall r :: r in u.chunks && u.chunks[r].document == k ==>
          t.nextRow <= r < t.nextRow + |content| && u.chunks[r] == ChunkRow(k, r - t.nextRow, content[r - t.nextRow]))
    && (forall r: RowId :: t.nextRow <= r < t.nextRow + |content| ==> r in u.chunks && u.chunks[r].document == k)
  }

  /** So are the search rows: one for each chunk, with its text and the name of the document. */
  ghost predicate SearchAs(t: Tables, u: Tables, k: Key, content: seq<Chunk>)
    requires k in t.documents
  {
    && (forall s :: s in u.search && s.document != k <==> s in t.search && s.document != k)
    && (forall s :: s in u.search && s.document == k <==>
          && s.document == k && s.name == t.documents[k].name && t.nextRow <= s.chunk < t.nextRow + |content|
          && s.content == content[s.chunk - t.nextRow].content)
  }

  /**
   The row is indexed at the digest, without a check; its chunk rows are the given chunks, numbered
   in order, with one search row each; its payload is the structured content, if there is any; the
   version is on record, and the records that cited the old content are stale. Nothing else changes.
   */
  ghost predicate IndexedAs(t: Tables, u: Tables, k: Key, sha: string, content: seq<Chunk>, structured: Option<Structured>, now: Time)
    requires k in t.documents
  {
    && OnlyRow(t, u, k) && k !in u.checks && Invalidates(t, u, k)
    && u.documents[k] == t.documents[k].(state := Indexed, reason := NoReason, sha := Some(sha), indexedAt := Some(now))
    && ChunksAs(t, u, k, content) && SearchAs(t, u, k, content)
    && (forall q :: q != k ==> (q in u.payloads <==> q in t.payloads))
    && (forall q :: q in t.payloads && q != k ==> u.payloads[q] == t.payloads[q])
    && (if structured.Some? then k in u.payloads && u.payloads[k] == Payload(sha, structured.value) else k !in u.payloads)
    && u.versions == t.versions + {Version(k, sha, t.documents[k].fingerprint)}
  }

  lemma {:induction false} IndexEffect(t: Tables, k: Key, sha: string, content: seq<Chunk>, structured: Option<Structured>, now: Time)
    requires k in t.documents
    ensures IndexedAs(t, WithContent(RemoveContent(t, k), k, sha, content, structured, now), k, sha, content, structured, now)
  {
    hide RemoveContent, RowsOf, SearchRowsOf, Invalid, NextEvent, ChunksAs, SearchAs, ForgetsContent;
    RemovalInvalidates(t, k);
    RemovalKeepsOthers(t, k);
    RemovalKeepsNumbers(t, k);
    IndexedChunks(t, k, sha, content, structured, now);
    IndexedSearch(t, k, sha, content, structured, now);
  }

  lemma RemovalKeepsNumbers(t: Tables, k: Key)
    ensures var u := RemoveContent(t, k);
      && u.nextRow == t.nextRow && u.versions == t.versions && u.payloads == t.payloads - {k}
      && u.chunks == ChunksWithout(t.chunks, k) && u.search == SearchWithout(t.search, k)
  {
  }

  lemma {:induction false} IndexedChunks(t: Tables, k: Key, sha: string, content: seq<Chunk>, structured: Option<Structured>, now: Time)
    requires k in t.documents && RemoveContent(t, k).documents == t.documents
    ensures ChunksAs(t, WithContent(RemoveContent(t, k), k, sha, content, structured, now), k, content)
  {
    hide RemoveContent, RowsOf, SearchRowsOf;
    RemovalKeepsNumbers(t, k);
  }

  lemma {:induction false} IndexedSearch(t: Tables, k: Key, sha: string, content: seq<Chunk>, structured: Option<Structured>, now: Time)
    requires k in t.documents && RemoveContent(t, k).documents == t.documents
    ensures SearchAs(t, WithContent(RemoveContent(t, k), k, sha, content, structured, now), k, content)
  {
    hide RemoveContent, RowsOf, SearchRowsOf;
    RemovalKeepsNumbers(t, k);
  }

  /** The store already holds exactly this content of this version: chunk for chunk, and the same structured content. */
  ghost predicate HoldsAlready(t: Tables, k: Key, sha: string, content: seq<Chunk>, structured: Option<Structured>)
    requires k in t.documents
  {
    && t.documents[k].state.Indexed? && t.documents[k].sha == Some(sha)
    && (forall r :: r in t.chunks && t.chunks[r].document == k ==>
          t.chunks[r].ordinal < |content| && t.chunks[r].chunk == content[t.chunks[r].ordinal])
    && (forall i: nat :: i < |content| ==> HasOrdinal(t.chunks, k, i))
    && (forall r, q :: r in t.chunks && q in t.chunks && t.chunks[r].document == k && t.chunks[q].document == k && r != q
          ==> t.chunks[r].ordinal != t.chunks[q].ordinal)
    && (if k in t.payloads then structured == Some(t.payloads[k].content) else structured.None?)
  }

  lemma AlreadyExactly(t: Tables, k: Key, sha: string, content: seq<Chunk>, structured: Option<Structured>)
    requires k in t.documents
    ensures AlreadyIndexed(t, k, sha, content, structured) <==> HoldsAlready(t, k, sha, content, structured)
  {
  }
}
