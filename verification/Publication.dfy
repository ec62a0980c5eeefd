/**
 Publication copies indexed documents from the operator's store into one partition per
 audience, after withdrawing from every partition what no longer belongs there. The
 operator's store is read in one snapshot; each partition is a store of its own.
 */
module Publication {
  import opened Wrappers
  import opened KnowledgeStore
  import opened AudienceRules
  import IndexProperties
  import CitationProperties
  import ScanJournal
  import opened RecordEffects
  import opened SourceEffects

  datatype Outcome = Done(published: nat, bounded: bool) | BindingsRefused | LimitRefused | ScopeRefused

  /** The partition row shows the version that the operator has indexed. */
  predicate Matches(operator: Tables, t: Tables, k: Key) {
    && k in operator.documents && k in t.documents && operator.documents[k].state.Indexed?
    && t.documents[k].sha == operator.documents[k].sha && t.documents[k].fingerprint == operator.documents[k].fingerprint
  }

  predicate Listed(t: Tables, k: Key) {
    k in t.documents && !t.documents[k].state.Withdrawn?
  }

  predicate Belongs(operator: Tables, rules: seq<Rule>, a: Audience, t: Tables, k: Key)
    requires Valid(rules)
  {
    Resolve(rules, k) == Some(a) && Matches(operator, t, k)
  }

  /** Nothing is left in a partition but current versions of its own audience's sources. */
  ghost predicate Reconciled(operator: Tables, rules: seq<Rule>, a: Audience, t: Tables)
    requires Valid(rules)
  {
    forall k :: Listed(t, k) ==> Belongs(operator, rules, a, t, k)
  }

  ghost predicate Safe(operator: Tables, rules: seq<Rule>, partitions: map<Audience, Tables>)
    requires Valid(rules)
  {
    forall a :: a in partitions ==> Reconciled(operator, rules, a, partitions[a])
  }

  // ---------------------------------------------------------------- one document

  /** The partition row takes over the operator's version and waits to be indexed; the old content stays until then. */
  function Upserted(t: Tables, k: Key, d: Document): Tables {
    t.(documents := t.documents[k :=
      if k in t.documents then
        t.documents[k].(bytes := d.bytes, modified := d.modified, fingerprint := d.fingerprint, seenScan := d.seenScan, lastSeen := d.lastSeen,
                        state := Pending, reason := NoReason)
      else Document(d.source, d.name, d.bytes, d.modified, d.fingerprint, d.seenScan, d.lastSeen, Pending, NoReason, None, None)])
  }

  function CheckCopied(operator: Tables, k: Key): Check
    requires k in operator.documents
  {
    var d := operator.documents[k];
    if k in operator.checks then operator.checks[k]
    else Check(if d.indexedAt.Some? then d.indexedAt.value else 0.0, d.indexedAt, PresentOutcome, d.sha)
  }

  /** The partition already has this version, with the same structured content. */
  predicate UpToDate(operator: Tables, t: Tables, k: Key) {
    Matches(operator, t, k) && t.documents[k].state.Indexed? && Stored(t.payloads, k) == Stored(operator.payloads, k)
  }

  function Refreshed(operator: Tables, t: Tables, k: Key): Tables
    requires k in operator.documents && k in t.documents
  {
    t.(checks := t.checks[k := CheckCopied(operator, k)],
       documents := t.documents[k := t.documents[k].(lastSeen := operator.documents[k].lastSeen, seenScan := operator.documents[k].seenScan)])
  }

  function Copied(operator: Tables, t: Tables, k: Key, content: seq<Chunk>, now: Time): Tables
    requires k in operator.documents && operator.documents[k].sha.Some?
  {
    var u := Reindexed(Upserted(t, k, operator.documents[k]), k, operator.documents[k].sha.value, content, Stored(operator.payloads, k), now);
    u.(checks := u.checks[k := CheckCopied(operator, k)])
  }

  /** The partition shows this source in the operator's version, with its text and the operator's check of it. */
  ghost predicate Published(operator: Tables, t: Tables, k: Key) {
    && UpToDate(operator, t, k) && k in t.checks && t.checks[k] == CheckCopied(operator, k)
  }

  /** The chunk rows of one document. */
  function RowsFor(chunks: map<RowId, ChunkRow>, k: Key): map<RowId, ChunkRow> {
    map r | r in chunks && chunks[r].document == k :: chunks[r]
  }

  /** Two stores hold the same text of a document, chunk by chunk. */
  ghost predicate SameText(operator: Tables, t: Tables, k: Key) {
    exists content :: HasContent(operator.chunks, k, content) && HasContent(t.chunks, k, content)
  }

  predicate ContentKept(t: Tables, u: Tables, k: Key) {
    Stored(u.payloads, k) == Stored(t.payloads, k) && RowsFor(u.chunks, k) == RowsFor(t.chunks, k)
  }

  /** Row, payload, check and chunks of a document are as they were. */
  predicate RowKept(t: Tables, u: Tables, k: Key) {
    && (k in u.documents <==> k in t.documents) && (k in t.documents ==> u.documents[k] == t.documents[k])
    && (k in u.checks <==> k in t.checks) && (k in t.checks ==> u.checks[k] == t.checks[k])
    && ContentKept(t, u, k)
  }

  /** Nothing is said or done about any other document. */
  ghost predicate OthersKept(t: Tables, u: Tables, k: Key) {
    forall q :: q != k ==> RowKept(t, u, q)
  }

  lemma KeptRows(t: Tables, u: Tables, k: Key)
    requires RowsFor(u.chunks, k) == RowsFor(t.chunks, k)
    ensures forall r :: r in t.chunks && t.chunks[r].document == k ==> r in u.chunks && u.chunks[r] == t.chunks[r]
    ensures forall r :: r in u.chunks && u.chunks[r].document == k ==> r in t.chunks && u.chunks[r] == t.chunks[r]
  {
    forall r | r in t.chunks && t.chunks[r].document == k ensures r in u.chunks && u.chunks[r] == t.chunks[r] {
      assert r in RowsFor(t.chunks, k);
      assert RowsFor(u.chunks, k)[r] == RowsFor(t.chunks, k)[r];
    }
    forall r | r in u.chunks && u.chunks[r].document == k ensures r in t.chunks && u.chunks[r] == t.chunks[r] {
      assert r in RowsFor(u.chunks, k);
      assert RowsFor(u.chunks, k)[r] == RowsFor(t.chunks, k)[r];
    }
  }

  lemma KeptContent(t: Tables, u: Tables, k: Key, content: seq<Chunk>)
    requires RowsFor(u.chunks, k) == RowsFor(t.chunks, k) && HasContent(t.chunks, k, content)
    ensures HasContent(u.chunks, k, content)
  {
    KeptRows(t, u, k);
    forall i: nat | i < |content| ensures HasOrdinal(u.chunks, k, i) {
      assert HasOrdinal(t.chunks, k, i);
      var r :| r in t.chunks && t.chunks[r].document == k && t.chunks[r].ordinal == i;
      assert r in u.chunks;
    }
  }

  lemma KeptText(operator: Tables, t: Tables, u: Tables, k: Key)
    requires RowsFor(u.chunks, k) == RowsFor(t.chunks, k)
    ensures SameText(operator, u, k) <==> SameText(operator, t, k)
  {
    hide RowsFor, HasContent;
    if SameText(operator, t, k) {
      var content :| HasContent(operator.chunks, k, content) && HasContent(t.chunks, k, content);
      KeptContent(t, u, k, content);
    }
    if SameText(operator, u, k) {
      var content :| HasContent(operator.chunks, k, content) && HasContent(u.chunks, k, content);
      KeptContent(u, t, k, content);
    }
  }

  lemma CopiedShape(operator: Tables, t: Tables, k: Key, content: seq<Chunk>, now: Time)
    requires k in operator.documents && operator.documents[k].state.Indexed? && operator.documents[k].sha.Some?
    requires Healthy(t)
    ensures var u := Copied(operator, t, k, content, now);
      Published(operator, u, k) && OthersKept(t, u, k) && HasContent(u.chunks, k, content)
  {
    hide Copied, CheckCopied, RowsFor, HasContent, Healthy;
    var u := Copied(operator, t, k, content, now);
    CopiedParts(operator, t, k, content, now);
    CopiedChunks(operator, t, k, content, now);
  }

  lemma {:induction false} CopiedChunks(operator: Tables, t: Tables, k: Key, content: seq<Chunk>, now: Time)
    requires k in operator.documents && operator.documents[k].sha.Some? && Healthy(t)
    ensures var u := Copied(operator, t, k, content, now);
      HasContent(u.chunks, k, content) && forall q :: q != k ==> RowsFor(u.chunks, q) == RowsFor(t.chunks, q)
  {
    hide RowsOf, SearchRowsOf, AlreadyIndexed, CheckCopied, HasContent, RowsFor, ChunksWithout, Citing, Moved, MoveEvents;
    var v := Upserted(t, k, operator.documents[k]);
    PendingIsNotIndexed(v, k, operator.documents[k].sha.value, content, Stored(operator.payloads, k));
    var left := ChunksWithout(t.chunks, k);
    assert Copied(operator, t, k, content, now).chunks == left + RowsOf(k, content, t.nextRow);
    RowsWithout(t.chunks, k);
    IndexProperties.InsertedContent(left, k, content, t.nextRow);
    forall q | q != k ensures RowsFor(left + RowsOf(k, content, t.nextRow), q) == RowsFor(t.chunks, q) {
      RowsBeside(left, k, content, t.nextRow, q);
    }
  }

  lemma RowsWithout(chunks: map<RowId, ChunkRow>, k: Key)
    ensures var left := ChunksWithout(chunks, k);
      && (forall r :: r in left ==> left[r].document != k && r in chunks)
      && (forall q :: q != k ==> RowsFor(left, q) == RowsFor(chunks, q))
  {
  }

  lemma {:induction false} RowsBeside(chunks: map<RowId, ChunkRow>, k: Key, added: seq<Chunk>, base: RowId, q: Key)
    requires q != k && forall r :: r in chunks ==> r < base
    ensures RowsFor(chunks + RowsOf(k, added, base), q) == RowsFor(chunks, q)
  {
    hide RowsOf;
  }

  lemma CopiedParts(operator: Tables, t: Tables, k: Key, content: seq<Chunk>, now: Time)
    requires k in operator.documents && operator.documents[k].sha.Some?
    ensures var u, d := Copied(operator, t, k, content, now), operator.documents[k];
      && k in u.documents && u.documents == t.documents[k := u.documents[k]]
      && u.documents[k].state.Indexed? && u.documents[k].sha == d.sha && u.documents[k].fingerprint == d.fingerprint
      && u.payloads == (if k in operator.payloads then t.payloads[k := Payload(d.sha.value, operator.payloads[k].content)] else t.payloads - {k})
      && u.checks == t.checks[k := CheckCopied(operator, k)]
  {
    hide RowsOf, SearchRowsOf, RemoveContent, AlreadyIndexed, CheckCopied;
    var v := Upserted(t, k, operator.documents[k]);
    PendingIsNotIndexed(v, k, operator.documents[k].sha.value, content, Stored(operator.payloads, k));
    RemovalScope(v, k);
  }

  lemma RemovalScope(t: Tables, k: Key)
    ensures var u := RemoveContent(t, k);
      u.documents == t.documents && u.payloads == t.payloads - {k} && u.checks == t.checks - {k}
  {
  }

  lemma RefreshedShape(operator: Tables, t: Tables, k: Key)
    requires UpToDate(operator, t, k)
    ensures var u := Refreshed(operator, t, k); Published(operator, u, k) && OthersKept(t, u, k) && u.chunks == t.chunks
  {
    hide RowsFor;
  }

  /** The partition row already shows the operator's version of a source, with the same structured content. */
  predicate Showing(operator: Tables, t: Tables, k: Key)
    requires k in operator.documents
  {
    && k in t.documents && t.documents[k].state.Indexed?
    && t.documents[k].sha == operator.documents[k].sha && t.documents[k].fingerprint == operator.documents[k].fingerprint
    && (k in t.payloads <==> k in operator.payloads)
    && (k in t.payloads ==> t.payloads[k].content == operator.payloads[k].content)
  }

  /**
   What publishing one source makes of its partition: the row shows the operator's version as it was
   last seen, with the operator's check, or what its row says where there is none. A row that showed
   that version is otherwise as it was; any other is indexed anew.
   */
  ghost predicate PublishedAs(operator: Tables, t: Tables, u: Tables, k: Key, now: Time)
    requires k in operator.documents
  {
    var d := operator.documents[k];
    && Showing(operator, u, k) && u.documents[k].seenScan == d.seenScan && u.documents[k].lastSeen == d.lastSeen
    && k in u.checks
    && (if k in operator.checks then u.checks[k] == operator.checks[k]
        else u.checks[k].verifiedAt == d.indexedAt && u.checks[k].sha == d.sha && u.checks[k].outcome.PresentOutcome?
             && (d.indexedAt.Some? ==> u.checks[k].checkedAt == d.indexedAt.value))
    && if Showing(operator, t, k) then u.documents[k] == t.documents[k].(seenScan := d.seenScan, lastSeen := d.lastSeen)
       else
         && u.documents[k].reason.NoReason? && u.documents[k].indexedAt == Some(now)
         && u.documents[k].bytes == d.bytes && u.documents[k].modified == d.modified
         && u.documents[k].source == (if k in t.documents then t.documents[k].source else d.source)
         && u.documents[k].name == (if k in t.documents then t.documents[k].name else d.name)
  }

  /** The records that cite a source which is indexed anew are stale, with one event each; otherwise only row and check change. */
  ghost predicate RecordsAs(operator: Tables, t: Tables, u: Tables, k: Key)
    requires k in operator.documents
  {
    if Showing(operator, t, k) then u == t.(documents := u.documents, checks := u.checks) else Invalidates(t, u, k)
  }

  lemma PublishedStays(operator: Tables, t: Tables, u: Tables, v: Tables, k: Key, now: Time)
    requires k in operator.documents && PublishedAs(operator, t, u, k, now) && RowKept(u, v, k)
    ensures PublishedAs(operator, t, v, k, now)
  {
    hide RowsFor;
  }

  lemma PublishedFrom(operator: Tables, s: Tables, t: Tables, u: Tables, k: Key, now: Time)
    requires k in operator.documents && RowKept(s, t, k) && PublishedAs(operator, t, u, k, now)
    ensures PublishedAs(operator, s, u, k, now) && (Showing(operator, s, k) <==> Showing(operator, t, k))
  {
    hide RowsFor;
  }

  /** Verified within the last day: by its check, or by its indexing where there is no check of it. */
  predicate Recent(operator: Tables, k: Key, now: Time) {
    && k in operator.documents && operator.documents[k].state.Indexed? && operator.documents[k].sha.Some?
    && if k in operator.checks then
         && operator.checks[k].sha == operator.documents[k].sha && operator.checks[k].verifiedAt.Some?
         && now - 86400.0 <= operator.checks[k].verifiedAt.value <= now
       else operator.documents[k].indexedAt.Some? && now - 86400.0 <= operator.documents[k].indexedAt.value <= now
  }

  lemma ShowingIsUpToDate(operator: Tables, t: Tables, k: Key)
    requires k in operator.documents && operator.documents[k].state.Indexed?
    ensures UpToDate(operator, t, k) <==> Showing(operator, t, k)
  {
  }

  lemma RefreshedAs(operator: Tables, t: Tables, k: Key, now: Time)
    requires UpToDate(operator, t, k)
    ensures PublishedAs(operator, t, Refreshed(operator, t, k), k, now) && RecordsAs(operator, t, Refreshed(operator, t, k), k)
  {
  }

  lemma CopiedAs(operator: Tables, t: Tables, k: Key, content: seq<Chunk>, now: Time)
    requires k in operator.documents && operator.documents[k].state.Indexed? && operator.documents[k].sha.Some? && !UpToDate(operator, t, k)
    ensures var u := Copied(operator, t, k, content, now); PublishedAs(operator, t, u, k, now) && RecordsAs(operator, t, u, k)
  {
    hide Reindexed, CheckCopied, Invalidates, UpToDate;
    ShowingIsUpToDate(operator, t, k);
    var d, v := operator.documents[k], Upserted(t, k, operator.documents[k]);
    CopiedFrom(operator, t, k, content, now);
    var w := Reindexed(v, k, d.sha.value, content, Stored(operator.payloads, k), now);
    InvalidatesBeside(t, v, w, Copied(operator, t, k, content, now), k);
    CheckOf(operator, k);
  }

  lemma CheckOf(operator: Tables, k: Key)
    requires k in operator.documents
    ensures var c, d := CheckCopied(operator, k), operator.documents[k];
      if k in operator.checks then c == operator.checks[k]
      else c.verifiedAt == d.indexedAt && c.sha == d.sha && c.outcome.PresentOutcome? && (d.indexedAt.Some? ==> c.checkedAt == d.indexedAt.value)
  {
  }

  lemma CopiedFrom(operator: Tables, t: Tables, k: Key, content: seq<Chunk>, now: Time)
    requires k in operator.documents && operator.documents[k].sha.Some?
    ensures var d, v := operator.documents[k], Upserted(t, k, operator.documents[k]);
      IndexedAs(v, Reindexed(v, k, d.sha.value, content, Stored(operator.payloads, k), now), k, d.sha.value, content,
                Stored(operator.payloads, k), now)
  {
    hide IndexedAs, WithContent, RemoveContent, AlreadyIndexed;
    var d, v := operator.documents[k], Upserted(t, k, operator.documents[k]);
    PendingIsNotIndexed(v, k, d.sha.value, content, Stored(operator.payloads, k));
    IndexEffect(v, k, d.sha.value, content, Stored(operator.payloads, k), now);
  }

  lemma InvalidatesBeside(t: Tables, v: Tables, w: Tables, u: Tables, k: Key)
    requires v == t.(documents := v.documents) && u == w.(checks := u.checks) && Invalidates(v, w, k)
    ensures Invalidates(t, u, k)
  {
    hide Cites;
    forall r ensures Cites(v, r, k) <==> Cites(t, r, k) { CitesBeside(t, v, r, k); }
  }

  lemma CitesBeside(t: Tables, v: Tables, r: RecordId, k: Key)
    requires v.dependencies == t.dependencies
    ensures Cites(v, r, k) <==> Cites(t, r, k)
  {
  }

  lemma PendingIsNotIndexed(t: Tables, k: Key, sha: string, content: seq<Chunk>, structured: Option<Structured>)
    requires k in t.documents && !t.documents[k].state.Indexed?
    ensures !AlreadyIndexed(t, k, sha, content, structured)
  {
  }

  /** Although the upsert leaves a pending row over old content, the copy ends in a partition that agrees with itself. */
  lemma CopiedAgrees(operator: Tables, t: Tables, k: Key, added: seq<Chunk>, now: Time, content: map<Key, seq<Chunk>>)
    requires k in operator.documents && operator.documents[k].sha.Some? && 0 < |added| <= 2000
    requires IndexProperties.Agrees(t.documents, t, content)
    ensures var u := Copied(operator, t, k, added, now); IndexProperties.Agrees(u.documents, u, content[k := added])
  {
    hide IndexProperties.RowsPlaced, IndexProperties.ContentHeld, IndexProperties.Mirrors, IndexProperties.Versioned,
      IndexProperties.PayloadsCurrent, AlreadyIndexed, WithContent, RemoveContent;
    var d := operator.documents[k];
    var v := Upserted(t, k, d);
    PendingIsNotIndexed(v, k, d.sha.value, added, Stored(operator.payloads, k));
    IndexProperties.RemovalAgrees(t, k, content);
    RemovalIgnoresRows(t, v, k);
    assert v.documents - {k} == t.documents - {k};
    IndexProperties.InsertionAgrees(RemoveContent(v, k), k, d.sha.value, added, Stored(operator.payloads, k), now, content);
  }

  lemma RemovalIgnoresRows(t: Tables, v: Tables, k: Key)
    requires v == t.(documents := v.documents)
    ensures RemoveContent(v, k) == RemoveContent(t, k).(documents := v.documents)
  {
  }

  /** Nor does it leave a record in force without its quotes. */
  lemma CopiedLive(operator: Tables, t: Tables, k: Key, added: seq<Chunk>, now: Time)
    requires k in operator.documents && operator.documents[k].sha.Some?
    requires CitationProperties.Live(t.documents, t) && forall r :: r in t.chunks ==> r < t.nextRow
    ensures var u := Copied(operator, t, k, added, now); CitationProperties.Live(u.documents, u)
  {
    hide AlreadyIndexed, WithContent, CitationProperties.Supported;
    var d := operator.documents[k];
    var v := Upserted(t, k, d);
    PendingIsNotIndexed(v, k, d.sha.value, added, Stored(operator.payloads, k));
    CitationProperties.RemovalLive(t, k);
    RemovalIgnoresRows(t, v, k);
    hide RemoveContent;
    assert v.documents - {k} == t.documents - {k};
    CitationProperties.ContentLive(RemoveContent(v, k), k, d.sha.value, added, Stored(operator.payloads, k), now);
  }

  // ---------------------------------------------------------------- what publication keeps of a store

  /** A store as the catalogue leaves it: index and chunks agree, and records in force have their quotes. */
  ghost predicate Healthy(t: Tables) {
    (exists content :: IndexProperties.Agrees(t.documents, t, content)) && CitationProperties.Live(t.documents, t)
  }

  lemma EmptyHealthy()
    ensures Healthy(Empty)
  {
    assert IndexProperties.Agrees(Empty.documents, Empty, map[]);
  }

  lemma WithdrawHealthy(t: Tables, k: Key, reason: Reason)
    requires Healthy(t)
    ensures Healthy(Withdraw(t, k, reason))
  {
    hide IndexProperties.Agrees, CitationProperties.Live, Withdraw;
    var content :| IndexProperties.Agrees(t.documents, t, content);
    IndexProperties.WithdrawAgrees(t, k, reason, content);
    CitationProperties.WithdrawnLive(t, k, reason);
  }

  lemma CopiedHealthy(operator: Tables, t: Tables, k: Key, added: seq<Chunk>, now: Time)
    requires k in operator.documents && operator.documents[k].sha.Some? && 0 < |added| <= 2000 && Healthy(t)
    ensures Healthy(Copied(operator, t, k, added, now))
  {
    hide IndexProperties.Agrees, CitationProperties.Live, Copied;
    var content :| IndexProperties.Agrees(t.documents, t, content);
    CitationProperties.AgreesParts(t, content);
    CopiedAgrees(operator, t, k, added, now, content);
    CopiedLive(operator, t, k, added, now);
  }

  lemma RefreshedHealthy(operator: Tables, t: Tables, k: Key)
    requires k in operator.documents && k in t.documents && Healthy(t)
    ensures Healthy(Refreshed(operator, t, k))
  {
    hide IndexProperties.RowsPlaced, IndexProperties.ContentHeld, IndexProperties.Mirrors, IndexProperties.Versioned,
      IndexProperties.PayloadsCurrent, CitationProperties.Supported;
    var content :| IndexProperties.Agrees(t.documents, t, content);
    var u := Refreshed(operator, t, k);
    IndexProperties.RowAgrees(t.documents, t, content, k, u.documents[k]);
    CitationProperties.RowLive(t.documents, t, k, u.documents[k]);
    assert IndexProperties.Agrees(u.documents, u, content);
  }

  /** The text of an indexed document, read ordinal by ordinal. */
  method ReadContent(t: Tables, k: Key) returns (content: seq<Chunk>)
    requires Healthy(t) && k in t.documents && t.documents[k].state.Indexed?
    ensures HasContent(t.chunks, k, content) && 0 < |content| <= 2000
  {
    hide IndexProperties.Mirrors, IndexProperties.RowsPlaced, IndexProperties.Versioned, IndexProperties.PayloadsCurrent, CitationProperties.Live;
    ghost var whole :| IndexProperties.Agrees(t.documents, t, whole);
    assert HasContent(t.chunks, k, whole[k]);
    hide IndexProperties.ContentHeld;
    IndexProperties.ContentCounted(t.chunks, k, whole[k]);
    var n := |RowIds(t.chunks, k)|;
    content := [];
    while |content| < n
      invariant |content| <= n && content == whole[k][..|content|]
    {
      assert HasOrdinal(t.chunks, k, |content|);
      var r :| r in t.chunks && t.chunks[r].document == k && t.chunks[r].ordinal == |content|;
      content := content + [t.chunks[r].chunk];
    }
    assert content == whole[k];
  }

  // ---------------------------------------------------------------- the two phases

  /** A row that belongs stays as it was; any other is withdrawn. */
  predicate RowReconciled(belongs: bool, before: Document, after: Document) {
    if before.state.Withdrawn? || belongs then after == before else after == Unindexed(before, Withdrawn, ScopeChanged)
  }

  ghost predicate Withdrawing(operator: Tables, rules: seq<Rule>, a: Audience, t: Tables, u: Tables)
    requires Valid(rules)
  {
    && u.documents.Keys == t.documents.Keys
    && (forall k :: k in t.documents ==> RowReconciled(Belongs(operator, rules, a, t, k), t.documents[k], u.documents[k]))
    && (forall k :: !Listed(t, k) || Belongs(operator, rules, a, t, k) ==> RowKept(t, u, k))
  }

  lemma WithdrawOne(t: Tables, k: Key, reason: Reason)
    requires k in t.documents
    ensures var u := Withdraw(t, k, reason);
      && u.documents == t.documents[k := Unindexed(t.documents[k], Withdrawn, reason)]
      && u.checks == t.checks - {k} && u.payloads == t.payloads - {k} && u.chunks == ChunksWithout(t.chunks, k)
      && Invalidates(t, u, k) && NothingLeft(u, k) && OthersKept(t, u, k)
  {
    hide RowsFor, Invalidates, Forgets;
    RowsWithout(t.chunks, k);
    RemovalInvalidates(t, k);
    WithOtherRows(t, RemoveContent(t, k), Withdraw(t, k, reason).documents, k);
  }

  /** Neither text nor check of the document is there. */
  ghost predicate NothingLeft(t: Tables, k: Key) {
    k !in t.payloads && k !in t.checks && forall r :: r in t.chunks ==> t.chunks[r].document != k
  }

  /** A row of a partition that the first phase leaves alone. */
  predicate Stays(operator: Tables, rules: seq<Rule>, a: Audience, t: Tables, k: Key)
    requires Valid(rules) && k in t.documents
  {
    || t.documents[k].state.Withdrawn?
    || (Resolve(rules, k) == Some(a) && k in operator.documents && operator.documents[k].state.Indexed?
        && operator.documents[k].sha == t.documents[k].sha && operator.documents[k].fingerprint == t.documents[k].fingerprint)
  }

  /**
   What the first phase makes of a partition. A row that stays keeps its content and its check; any
   other is withdrawn, with nothing left of it, and exactly the records that cite such a row are stale.
   */
  ghost predicate FirstPhase(operator: Tables, rules: seq<Rule>, a: Audience, t: Tables, u: Tables)
    requires Valid(rules)
  {
    && u.documents.Keys == t.documents.Keys
    && (forall k :: k in t.documents ==>
          if Stays(operator, rules, a, t, k) then RowKept(t, u, k)
          else NothingLeft(u, k) && u.documents[k] == t.documents[k].(state := Withdrawn, reason := ScopeChanged, sha := None, indexedAt := None))
    && Staled(t, u, set k | k in t.documents && !Stays(operator, rules, a, t, k))
  }

  ghost predicate CitesOne(t: Tables, r: RecordId, gone: set<Key>) {
    exists k :: k in gone && Invalid(t, r, k)
  }

  /** Exactly the records in force that cite one of these documents turned stale, with one event each. */
  ghost predicate Staled(t: Tables, u: Tables, gone: set<Key>) {
    && u.records.Keys == t.records.Keys && u.dependencies == t.dependencies && u.corrections == t.corrections
    && (forall r :: r in t.records ==> u.records[r] == if CitesOne(t, r, gone) then Moving(t.records[r], Stale) else t.records[r])
    && (forall e: Event :: u.events[e] == t.events[e] + if CitesOne(t, e.record, gone) && NextEvent(t, e, SourceInvalidated) then 1 else 0)
  }

  lemma NoneStaled(t: Tables)
    ensures Staled(t, t, {})
  {
  }

  lemma StaledAgain(t: Tables, u: Tables, v: Tables, gone: set<Key>, k: Key)
    requires Staled(t, u, gone) && Invalidates(u, v, k)
    ensures Staled(t, v, gone + {k})
  {
    hide Cites;
    forall r ensures Cites(u, r, k) <==> Cites(t, r, k) { CitesBeside(t, u, r, k); }
    forall r ensures CitesOne(t, r, gone + {k}) <==> CitesOne(t, r, gone) || Invalid(t, r, k) { OneMoreCited(t, r, gone, k); }
    hide CitesOne;
    assert forall r :: Invalid(u, r, k) <==> Invalid(t, r, k) && !CitesOne(t, r, gone);
  }

  lemma OneMoreCited(t: Tables, r: RecordId, gone: set<Key>, k: Key)
    ensures CitesOne(t, r, gone + {k}) <==> CitesOne(t, r, gone) || Invalid(t, r, k)
  {
    hide Invalid;
  }

  /** For the sources of its audience, reconciling changes neither whether a partition is up to date nor the text it has. */
  lemma ReconciledText(operator: Tables, rules: seq<Rule>, a: Audience, t: Tables, u: Tables, k: Key)
    requires Valid(rules) && Withdrawing(operator, rules, a, t, u) && Resolve(rules, k) == Some(a)
    ensures UpToDate(operator, u, k) <==> UpToDate(operator, t, k)
    ensures UpToDate(operator, t, k) ==> (SameText(operator, u, k) <==> SameText(operator, t, k))
  {
    hide Resolve, SameText, RowsFor;
    if k in t.documents {
      assert RowReconciled(Belongs(operator, rules, a, t, k), t.documents[k], u.documents[k]);
      if Belongs(operator, rules, a, t, k) { KeptText(operator, t, u, k); }
    }
  }

  function PartitionOf(partitions: map<Audience, Tables>, a: Audience): Tables {
    if a in partitions then partitions[a] else Empty
  }

  /** A partition has the operator's text of a source exactly when its row was not up to date before, or had that text already. */
  ghost predicate TextDecided(operator: Tables, t: Tables, u: Tables, k: Key) {
    SameText(operator, u, k) <==> !UpToDate(operator, t, k) || SameText(operator, t, k)
  }

  lemma TextStays(operator: Tables, t: Tables, u: Tables, v: Tables, k: Key)
    requires TextDecided(operator, t, u, k) && RowKept(u, v, k)
    ensures TextDecided(operator, t, v, k)
  {
    hide SameText, RowsFor, UpToDate;
    KeptText(operator, u, v, k);
  }

  lemma TextFrom(operator: Tables, t: Tables, u: Tables, v: Tables, k: Key)
    requires RowKept(t, u, k) && TextDecided(operator, u, v, k)
    ensures TextDecided(operator, t, v, k)
  {
    hide SameText, RowsFor;
    KeptText(operator, t, u, k);
  }

  lemma NothingDone(t: Tables, k: Key)
    ensures RowKept(t, t, k) && ContentKept(t, t, k)
  {
  }

  lemma KeptOn(t: Tables, u: Tables, v: Tables, k: Key)
    requires RowKept(t, u, k) && RowKept(u, v, k)
    ensures RowKept(t, v, k)
  {
    hide RowsFor;
  }

  /** A source that is to be published: it has an audience, and its check is recent. */
  predicate Eligible(operator: Tables, rules: seq<Rule>, k: Key, now: Time)
    requires Valid(rules)
  {
    && Resolve(rules, k).Some? && k in operator.documents && operator.documents[k].sha.Some?
    && SourceCurrent(operator, k, operator.documents[k].sha.value, now)
  }

  lemma EligibleExactly(operator: Tables, rules: seq<Rule>, k: Key, now: Time)
    requires Valid(rules)
    ensures Eligible(operator, rules, k, now) <==> Resolve(rules, k).Some? && Recent(operator, k, now)
  {
    hide Resolve;
  }

  /** The sources that a run has to copy into these partitions. */
  function ToCopy(operator: Tables, rules: seq<Rule>, partitions: map<Audience, Tables>, order: seq<Key>, now: Time): set<Key>
    requires Valid(rules)
  {
    set k | k in order && Resolve(rules, k).Some? && Recent(operator, k, now)
            && !Showing(operator, PartitionOf(partitions, Resolve(rules, k).value), k)
  }

  ghost predicate Shown(operator: Tables, rules: seq<Rule>, partitions: map<Audience, Tables>, k: Key)
    requires Valid(rules)
  {
    var a := Resolve(rules, k);
    a.Some? && a.value in partitions && Published(operator, partitions[a.value], k)
  }

  lemma StepSafe(operator: Tables, rules: seq<Rule>, partitions: map<Audience, Tables>, a: Audience, k: Key,
                 t: Tables, u: Tables)
    requires Valid(rules) && Safe(operator, rules, partitions) && Resolve(rules, k) == Some(a)
    requires t == if a in partitions then partitions[a] else Empty
    requires Published(operator, u, k) && OthersKept(t, u, k)
    ensures Safe(operator, rules, partitions[a := u])
    ensures Shown(operator, rules, partitions[a := u], k)
    ensures forall q :: Shown(operator, rules, partitions, q) ==> Shown(operator, rules, partitions[a := u], q)
  {
    hide Resolve, CheckCopied, RowsFor;
    forall q | Listed(u, q) ensures Belongs(operator, rules, a, u, q) {
      if q != k {
        assert RowKept(t, u, q);
        assert Listed(t, q) && Belongs(operator, rules, a, t, q);
      }
    }
    forall q | Shown(operator, rules, partitions, q) ensures Shown(operator, rules, partitions[a := u], q) {
      if q != k { assert RowKept(t, u, q); }
    }
  }

  lemma ReconciledSafe(operator: Tables, rules: seq<Rule>, a: Audience, t: Tables, u: Tables)
    requires Valid(rules) && Withdrawing(operator, rules, a, t, u)
    ensures Reconciled(operator, rules, a, u)
  {
    hide Resolve;
    forall k | Listed(u, k) ensures Belongs(operator, rules, a, u, k) {
      assert RowReconciled(Belongs(operator, rules, a, t, k), t.documents[k], u.documents[k]);
    }
  }

  /** The first phase, part of the way: the rows in `gone` were withdrawn, those in `left` are still to be looked at. */
  ghost predicate Halfway(operator: Tables, rules: seq<Rule>, a: Audience, t: Tables, u: Tables, left: set<Key>, gone: set<Key>)
    requires Valid(rules)
  {
    && left + gone <= t.documents.Keys == u.documents.Keys && left !! gone
    && (forall k :: k in t.documents && k !in left ==> (k in gone <==> !Stays(operator, rules, a, t, k)))
    && (forall k :: k in gone ==> NothingLeft(u, k))
    && (forall k :: k in gone ==>
          u.documents[k] == t.documents[k].(state := Withdrawn, reason := ScopeChanged, sha := None, indexedAt := None))
    && (forall k :: k !in gone ==> RowKept(t, u, k))
    && Staled(t, u, gone)
  }

  lemma AtFirst(operator: Tables, rules: seq<Rule>, a: Audience, t: Tables)
    requires Valid(rules)
    ensures Halfway(operator, rules, a, t, t, set k | k in t.documents && !t.documents[k].state.Withdrawn?, {})
  {
    hide Resolve, RowKept, Staled;
    NoneStaled(t);
    forall k: Key ensures RowKept(t, t, k) { NothingDone(t, k); }
  }

  lemma OneWithdrawn(operator: Tables, rules: seq<Rule>, a: Audience, t: Tables, u: Tables, left: set<Key>, gone: set<Key>, k: Key)
    requires Valid(rules) && Halfway(operator, rules, a, t, u, left, gone) && k in left && !Stays(operator, rules, a, t, k)
    ensures Halfway(operator, rules, a, t, Withdraw(u, k, ScopeChanged), left - {k}, gone + {k})
  {
    hide Stays, Withdraw, Staled, Invalidates, ChunksWithout, OthersKept;
    assert u.documents[k] == t.documents[k] by { assert RowKept(t, u, k); }
    hide RowKept;
    WithdrawOne(u, k, ScopeChanged);
    var v := Withdraw(u, k, ScopeChanged);
    StaledAgain(t, u, v, gone, k);
    StillKept(t, u, v, gone, k);
    StillNothing(u, v, gone, k);
    hide NothingLeft;
  }

  lemma StillKept(t: Tables, u: Tables, v: Tables, gone: set<Key>, k: Key)
    requires OthersKept(u, v, k) && forall q :: q !in gone ==> RowKept(t, u, q)
    ensures forall q :: q !in gone + {k} ==> RowKept(t, v, q)
  {
    hide RowKept;
    forall q | q !in gone + {k} ensures RowKept(t, v, q) {
      KeptOn(t, u, v, q);
    }
  }

  lemma StillNothing(u: Tables, v: Tables, gone: set<Key>, k: Key)
    requires v.checks == u.checks - {k} && v.payloads == u.payloads - {k} && v.chunks == ChunksWithout(u.chunks, k)
    requires forall q :: q in gone ==> NothingLeft(u, q)
    ensures forall q :: q in gone ==> NothingLeft(v, q)
  {
  }

  lemma OneLeft(operator: Tables, rules: seq<Rule>, a: Audience, t: Tables, u: Tables, left: set<Key>, gone: set<Key>, k: Key)
    requires Valid(rules) && Halfway(operator, rules, a, t, u, left, gone) && k in left && Stays(operator, rules, a, t, k)
    ensures Halfway(operator, rules, a, t, u, left - {k}, gone)
  {
    hide Stays, NothingLeft, RowKept, Staled;
  }

  lemma StaysWithScope(operator: Tables, rules: seq<Rule>, a: Audience, t: Tables, k: Key)
    requires Valid(rules) && k in t.documents
    ensures Stays(operator, rules, a, t, k) <==> t.documents[k].state.Withdrawn? || Belongs(operator, rules, a, t, k)
  {
    hide Resolve;
  }

  /** What the first phase comes to, row by row. */
  lemma RowsHalfway(operator: Tables, rules: seq<Rule>, a: Audience, t: Tables, u: Tables, gone: set<Key>)
    requires Valid(rules) && Halfway(operator, rules, a, t, u, {}, gone)
    ensures FirstPhase(operator, rules, a, t, u)
  {
    hide Stays, NothingLeft, RowKept, Staled;
    assert gone == set k | k in t.documents && !Stays(operator, rules, a, t, k);
  }

  lemma ReconciledRows(operator: Tables, rules: seq<Rule>, a: Audience, t: Tables, u: Tables, gone: set<Key>)
    requires Valid(rules) && Halfway(operator, rules, a, t, u, {}, gone)
    ensures Withdrawing(operator, rules, a, t, u)
    ensures gone == set k | k in t.documents && !Stays(operator, rules, a, t, k)
  {
    hide Resolve, ContentKept, NothingLeft, Staled;
  }

  // ---------------------------------------------------------------- the partitions the program updates

  class Publisher {
    var partitions: map<Audience, Tables>

    ghost predicate Valid()
      reads this
    {
      forall a :: a in partitions ==> Healthy(partitions[a])
    }

    constructor ()
      ensures partitions == map[] && Valid()
    {
      partitions := map[];
    }

    /** First phase, one partition: what no longer belongs there is withdrawn, and no other row is touched. */
    method Reconcile(operator: Tables, rules: seq<Rule>, a: Audience)
      requires AudienceRules.Valid(rules) && a in partitions && Valid()
      modifies this
      ensures Valid() && a in partitions && partitions == old(partitions)[a := partitions[a]]
      ensures Withdrawing(operator, rules, a, old(partitions)[a], partitions[a])
      ensures FirstPhase(operator, rules, a, old(partitions)[a], partitions[a])
    {
      hide Stays, Withdraw, Withdrawing, FirstPhase, Healthy, Halfway;
      var t := partitions[a];
      var u := t;
      var left := set k | k in t.documents && !t.documents[k].state.Withdrawn?;
      ghost var gone: set<Key> := {};
      AtFirst(operator, rules, a, t);
      while left != {}
        invariant partitions == old(partitions) && left <= t.documents.Keys && Healthy(u)
        invariant forall k :: k in left ==> !t.documents[k].state.Withdrawn?
        invariant Halfway(operator, rules, a, t, u, left, gone)
        decreases |left|
      {
        var k :| k in left;
        StaysWithScope(operator, rules, a, t, k);
        if !Belongs(operator, rules, a, t, k) {
          OneWithdrawn(operator, rules, a, t, u, left, gone, k);
          WithdrawHealthy(u, k, ScopeChanged);
          u := Withdraw(u, k, ScopeChanged);
          gone := gone + {k};
        } else {
          OneLeft(operator, rules, a, t, u, left, gone, k);
        }
        left := left - {k};
      }
      ReconciledRows(operator, rules, a, t, u, gone);
      RowsHalfway(operator, rules, a, t, u, gone);
      partitions := partitions[a := u];
    }

    method ReconcileAll(operator: Tables, rules: seq<Rule>)
      requires AudienceRules.Valid(rules) && Valid()
      modifies this
      ensures partitions.Keys == old(partitions).Keys && Valid()
      ensures forall a :: a in partitions ==> Withdrawing(operator, rules, a, old(partitions)[a], partitions[a])
      ensures forall a :: a in partitions ==> FirstPhase(operator, rules, a, old(partitions)[a], partitions[a])
      ensures Safe(operator, rules, partitions)
    {
      hide Resolve, FirstPhase, Withdrawing, Reconciled, Healthy, AudienceRules.Valid;
      ghost var before := partitions;
      var left := partitions.Keys;
      while left != {}
        invariant partitions.Keys == before.Keys && left <= before.Keys && Valid()
        invariant forall a :: a in left ==> partitions[a] == before[a]
        invariant forall a :: a in before.Keys - left ==>
          Withdrawing(operator, rules, a, before[a], partitions[a]) && FirstPhase(operator, rules, a, before[a], partitions[a])
        decreases |left|
      {
        var a :| a in left;
        Reconcile(operator, rules, a);
        left := left - {a};
      }
      forall a | a in before.Keys ensures Reconciled(operator, rules, a, partitions[a]) {
        assert a in before.Keys - left;
        ReconciledSafe(operator, rules, a, before[a], partitions[a]);
      }
    }

    /** One eligible source: refreshed where the partition is up to date, copied otherwise. */
    method PublishOne(operator: Tables, rules: seq<Rule>, k: Key, now: Time) returns (copied: bool)
      requires AudienceRules.Valid(rules) && Valid() && Healthy(operator) && Eligible(operator, rules, k, now)
      requires Safe(operator, rules, partitions)
      modifies this
      ensures Valid() && Safe(operator, rules, partitions) && Shown(operator, rules, partitions, k)
      ensures forall q :: Shown(operator, rules, old(partitions), q) ==> Shown(operator, rules, partitions, q)
      ensures var a := Resolve(rules, k).value;
        && partitions == old(partitions)[a := PartitionOf(partitions, a)]
        && OthersKept(PartitionOf(old(partitions), a), PartitionOf(partitions, a), k)
        && TextDecided(operator, PartitionOf(old(partitions), a), PartitionOf(partitions, a), k)
        && PublishedAs(operator, PartitionOf(old(partitions), a), PartitionOf(partitions, a), k, now)
        && RecordsAs(operator, PartitionOf(old(partitions), a), PartitionOf(partitions, a), k)
        && (copied <==> !Showing(operator, PartitionOf(old(partitions), a), k))
    {
      hide PublishedAs, RecordsAs, Showing;
      hide SameText, RowsFor, HasContent;
      hide Resolve, Copied, Refreshed, Healthy, OthersKept, Published, Safe, CheckCopied;
      var a := Resolve(rules, k).value;
      EmptyHealthy();
      var t := if a in partitions then partitions[a] else Empty;
      ShowingIsUpToDate(operator, t, k);
      if UpToDate(operator, t, k) {
        RefreshedAs(operator, t, k, now);
        RefreshedShape(operator, t, k);
        RefreshedHealthy(operator, t, k);
        StepSafe(operator, rules, partitions, a, k, t, Refreshed(operator, t, k));
        KeptText(operator, t, Refreshed(operator, t, k), k);
        partitions := partitions[a := Refreshed(operator, t, k)];
        return false;
      }
      var content := ReadContent(operator, k);
      CopiedAs(operator, t, k, content, now);
      CopiedShape(operator, t, k, content, now);
      CopiedHealthy(operator, t, k, content, now);
      StepSafe(operator, rules, partitions, a, k, t, Copied(operator, t, k, content, now));
      assert SameText(operator, Copied(operator, t, k, content, now), k) by { TextHeld(operator, Copied(operator, t, k, content, now), k, content); }
      partitions := partitions[a := Copied(operator, t, k, content, now)];
      return true;
    }

    /**
     Both phases, over the operator's indexed sources in the order of their rows. However the run
     ends after the bindings and the limit were accepted, no partition is left showing anything but
     current versions of its own audience's sources; an unbounded run leaves every eligible source shown.
     */
    method Publish(operator: Tables, order: seq<Key>, rules: seq<Rule>, maxDocuments: int, scopes: set<Audience>,
                   now: Time)
      returns (r: Outcome, ghost reconciled: map<Audience, Tables>)
      requires Valid() && Healthy(operator)
      requires forall k :: k in order <==> k in operator.documents && operator.documents[k].state.Indexed?
      requires forall i, j :: 0 <= i < j < |order| ==> order[i] != order[j]
      modifies this
      ensures Valid()
      ensures r.BindingsRefused? <==> !AudienceRules.Valid(rules)
      ensures !r.BindingsRefused? <==>
        && |rules| <= 256 && (forall i :: 0 <= i < |rules| ==> ScanJournal.WellFormed(rules[i].key))
        && (forall i, j :: 0 <= i < |rules| && 0 <= j < |rules| && i != j ==> rules[i].key != rules[j].key)
      ensures r.LimitRefused? <==> AudienceRules.Valid(rules) && !(1 <= maxDocuments <= 1000)
      ensures r.BindingsRefused? || r.LimitRefused? ==> partitions == old(partitions)
      ensures r.Done? || r.ScopeRefused? ==> Safe(operator, rules, partitions)
      // What the first phase leaves, and what differs from that at the end.
      ensures r.Done? || r.ScopeRefused? ==>
        reconciled.Keys == old(partitions).Keys && forall a :: a in reconciled ==> FirstPhase(operator, rules, a, old(partitions)[a], reconciled[a])
      ensures r.Done? || r.ScopeRefused? ==> forall a, k :: !RowKept(PartitionOf(reconciled, a), PartitionOf(partitions, a), k) ==>
        && k in order && Resolve(rules, k) == Some(a) && operator.documents[k].state.Indexed?
        && if k in operator.checks then
             && operator.checks[k].sha == operator.documents[k].sha && operator.checks[k].verifiedAt.Some?
             && now - 86400.0 <= operator.checks[k].verifiedAt.value <= now
           else operator.documents[k].indexedAt.Some? && now - 86400.0 <= operator.documents[k].indexedAt.value <= now
      // What an unbounded run leaves of each source with an audience and a recent verification.
      ensures r.Done? && !r.bounded ==> forall k :: k in order && Resolve(rules, k).Some? && Recent(operator, k, now) ==>
        var a := Resolve(rules, k).value;
        && a in partitions && PublishedAs(operator, PartitionOf(reconciled, a), partitions[a], k, now)
        && TextDecided(operator, PartitionOf(old(partitions), a), partitions[a], k)
      ensures r.Done? && !r.bounded ==> forall k :: k in order && Eligible(operator, rules, k, now) ==> Shown(operator, rules, partitions, k)
      ensures r.Done? ==> var n := |ToCopy(operator, rules, reconciled, order, now)|;
        r.published == (if n <= maxDocuments then n else maxDocuments) && (r.bounded <==> n >= maxDocuments)
      ensures r.ScopeRefused? ==> exists k :: k in order && Recent(operator, k, now) && Resolve(rules, k).Some? && Resolve(rules, k).value !in scopes
    {
      hide Resolve, Healthy, Shown, Safe, Eligible, Recent, Withdrawing, FirstPhase, OthersKept, RowKept, PartitionOf;
      hide TextDecided, PublishedAs, RecordsAs, PublishedSoFar, ToCopy;
      reconciled := map[];
      if !AudienceRules.Valid(rules) { return BindingsRefused, reconciled; }
      if !(1 <= maxDocuments <= 1000) { return LimitRefused, reconciled; }
      ReconcileAll(operator, rules);
      reconciled := partitions;
      var published := 0;
      NothingPublished(operator, rules, reconciled, now);
      for i := 0 to |order|
        invariant Valid() && Safe(operator, rules, partitions) && published < maxDocuments
        invariant PublishedSoFar(operator, rules, reconciled, partitions, order[..i], now)
        invariant published == |ToCopy(operator, rules, reconciled, order[..i], now)|
      {
        assert order[..i + 1] == order[..i] + [order[i]] && order[i] !in order[..i];
        EligibleExactly(operator, rules, order[i], now);
        if Eligible(operator, rules, order[i], now) {
          if Resolve(rules, order[i]).value !in scopes {
            OnlyRecentDiffer(operator, rules, reconciled, partitions, order[..i], now);
            return ScopeRefused, reconciled;
          }
          ghost var before := partitions;
          var copied := PublishOne(operator, rules, order[i], now);
          OneMoreDecided(operator, rules, reconciled, before, partitions, order[..i], order[i], now);
          OneMoreToCopy(operator, rules, reconciled, before, order[..i], order[i], now);
          if copied { published := published + 1; }
          if copied && published >= maxDocuments {
            OnlyRecentDiffer(operator, rules, reconciled, partitions, order[..i + 1], now);
            MoreToCopy(operator, rules, reconciled, order, i + 1, now);
            return Done(published, true), reconciled;
          }
        } else {
          OneMorePassed(operator, rules, reconciled, partitions, order[..i], order[i], now);
        }
      }
      assert order[..|order|] == order;
      OnlyRecentDiffer(operator, rules, reconciled, partitions, order, now);
      DecidedFromStart(operator, rules, old(partitions), reconciled, partitions, order, now);
      return Done(published, false), reconciled;
    }
  }

  // ---------------------------------------------------------------- the text that is shown

  /** A source of this audience, of those already looked at, is shown as it has to be. */
  ghost predicate Shows(operator: Tables, before: map<Audience, Tables>, after: map<Audience, Tables>, a: Audience, k: Key, now: Time)
    requires k in operator.documents
  {
    && a in after && PublishedAs(operator, PartitionOf(before, a), after[a], k, now)
    && TextDecided(operator, PartitionOf(before, a), after[a], k)
  }

  /** Of the sources looked at so far, exactly those with an audience and a recent verification are published. */
  ghost predicate PublishedSoFar(operator: Tables, rules: seq<Rule>, before: map<Audience, Tables>, after: map<Audience, Tables>,
                                 done: seq<Key>, now: Time)
    requires Valid(rules)
  {
    && (forall k :: k in done && Resolve(rules, k).Some? && Recent(operator, k, now) ==>
          Shows(operator, before, after, Resolve(rules, k).value, k, now))
    && (forall a, k :: !RowKept(PartitionOf(before, a), PartitionOf(after, a), k) ==>
          k in done && Resolve(rules, k) == Some(a) && Recent(operator, k, now))
  }

  lemma NothingPublished(operator: Tables, rules: seq<Rule>, partitions: map<Audience, Tables>, now: Time)
    requires Valid(rules)
    ensures PublishedSoFar(operator, rules, partitions, partitions, [], now)
    ensures ToCopy(operator, rules, partitions, [], now) == {}
  {
    hide Resolve, RowKept, PartitionOf;
    forall a: Audience, k: Key ensures RowKept(PartitionOf(partitions, a), PartitionOf(partitions, a), k) {
      NothingDone(PartitionOf(partitions, a), k);
    }
  }

  lemma OneMorePassed(operator: Tables, rules: seq<Rule>, before: map<Audience, Tables>, after: map<Audience, Tables>,
                      done: seq<Key>, k: Key, now: Time)
    requires Valid(rules) && !(Resolve(rules, k).Some? && Recent(operator, k, now))
    requires PublishedSoFar(operator, rules, before, after, done, now)
    ensures PublishedSoFar(operator, rules, before, after, done + [k], now)
    ensures ToCopy(operator, rules, before, done + [k], now) == ToCopy(operator, rules, before, done, now)
  {
    hide Recent, Resolve, Shows, RowKept, PartitionOf, Showing;
  }

  /** A source that is published is copied exactly if the reconciled partition did not show it. */
  lemma OneMoreToCopy(operator: Tables, rules: seq<Rule>, start: map<Audience, Tables>, before: map<Audience, Tables>,
                      done: seq<Key>, k: Key, now: Time)
    requires Valid(rules) && Resolve(rules, k).Some? && Recent(operator, k, now) && k !in done
    requires PublishedSoFar(operator, rules, start, before, done, now)
    ensures ToCopy(operator, rules, start, done + [k], now)
            == ToCopy(operator, rules, start, done, now) + (if Showing(operator, PartitionOf(before, Resolve(rules, k).value), k) then {} else {k})
    ensures k !in ToCopy(operator, rules, start, done, now)
  {
    hide Resolve, Showing, Shows, PartitionOf, RowKept;
    var a := Resolve(rules, k).value;
    assert RowKept(PartitionOf(start, a), PartitionOf(before, a), k);
    SameShowing(operator, PartitionOf(start, a), PartitionOf(before, a), k);
    hide Recent;
  }

  lemma SameShowing(operator: Tables, s: Tables, t: Tables, k: Key)
    requires k in operator.documents && RowKept(s, t, k)
    ensures Showing(operator, s, k) <==> Showing(operator, t, k)
  {
    hide RowsFor;
  }

  lemma MoreToCopy(operator: Tables, rules: seq<Rule>, partitions: map<Audience, Tables>, order: seq<Key>, n: nat, now: Time)
    requires Valid(rules) && n <= |order|
    ensures |ToCopy(operator, rules, partitions, order[..n], now)| <= |ToCopy(operator, rules, partitions, order, now)|
  {
    hide Resolve, Showing, PartitionOf, Recent;
    var a, b := ToCopy(operator, rules, partitions, order[..n], now), ToCopy(operator, rules, partitions, order, now);
    assert a <= b;
    Fewer(a, b);
  }

  lemma {:induction false} Fewer(a: set<Key>, b: set<Key>)
    requires a <= b
    ensures |a| <= |b|
  {
    if k :| k in a { Fewer(a - {k}, b - {k}); }
  }

  lemma OneMoreDecided(operator: Tables, rules: seq<Rule>, start: map<Audience, Tables>, before: map<Audience, Tables>,
                       after: map<Audience, Tables>, done: seq<Key>, k: Key, now: Time)
    requires Valid(rules) && Resolve(rules, k).Some? && Recent(operator, k, now) && k !in done
    requires PublishedSoFar(operator, rules, start, before, done, now)
    requires var a := Resolve(rules, k).value;
      && a in after && after == before[a := PartitionOf(after, a)]
      && OthersKept(PartitionOf(before, a), PartitionOf(after, a), k)
      && TextDecided(operator, PartitionOf(before, a), PartitionOf(after, a), k)
      && PublishedAs(operator, PartitionOf(before, a), PartitionOf(after, a), k, now)
    ensures PublishedSoFar(operator, rules, start, after, done + [k], now)
  {
    hide Resolve, TextDecided, RowKept, PublishedAs;
    var a := Resolve(rules, k).value;
    assert RowKept(PartitionOf(start, a), PartitionOf(before, a), k);
    TextFrom(operator, PartitionOf(start, a), PartitionOf(before, a), PartitionOf(after, a), k);
    PublishedFrom(operator, PartitionOf(start, a), PartitionOf(before, a), PartitionOf(after, a), k, now);
    forall b: Audience, q: Key | q != k || b != a ensures RowKept(PartitionOf(before, b), PartitionOf(after, b), q) {
      if b != a { NothingDone(PartitionOf(before, b), q); }
    }
    hide OthersKept;
    forall b: Audience, q: Key | !RowKept(PartitionOf(start, b), PartitionOf(after, b), q)
      ensures q in done + [k] && Resolve(rules, q) == Some(b) && Recent(operator, q, now)
    {
      if (q != k || b != a) && RowKept(PartitionOf(start, b), PartitionOf(before, b), q) {
        KeptOn(PartitionOf(start, b), PartitionOf(before, b), PartitionOf(after, b), q);
      }
    }
    forall q | q in done && Resolve(rules, q).Some? && Recent(operator, q, now)
      ensures Shows(operator, start, after, Resolve(rules, q).value, q, now)
    {
      var b := Resolve(rules, q).value;
      StillShown(operator, start, before, after, b, q, now);
    }
  }

  /** What differs from the reconciled partitions is a source of that audience, verified within the last day. */
  lemma OnlyRecentDiffer(operator: Tables, rules: seq<Rule>, before: map<Audience, Tables>, after: map<Audience, Tables>,
                         done: seq<Key>, now: Time)
    requires Valid(rules) && PublishedSoFar(operator, rules, before, after, done, now)
    ensures forall a, k :: !RowKept(PartitionOf(before, a), PartitionOf(after, a), k) ==>
      && k in done && Resolve(rules, k) == Some(a) && k in operator.documents && operator.documents[k].state.Indexed?
      && if k in operator.checks then
           && operator.checks[k].sha == operator.documents[k].sha && operator.checks[k].verifiedAt.Some?
           && now - 86400.0 <= operator.checks[k].verifiedAt.value <= now
         else operator.documents[k].indexedAt.Some? && now - 86400.0 <= operator.documents[k].indexedAt.value <= now
  {
    hide Resolve, RowKept, Shows, PartitionOf;
  }

  lemma StillShown(operator: Tables, start: map<Audience, Tables>, before: map<Audience, Tables>, after: map<Audience, Tables>,
                   a: Audience, k: Key, now: Time)
    requires k in operator.documents && Shows(operator, start, before, a, k, now) && a in after
    requires RowKept(PartitionOf(before, a), PartitionOf(after, a), k)
    ensures Shows(operator, start, after, a, k, now)
  {
    hide TextDecided, RowKept, PublishedAs;
    TextStays(operator, PartitionOf(start, a), PartitionOf(before, a), PartitionOf(after, a), k);
    PublishedStays(operator, PartitionOf(start, a), PartitionOf(before, a), PartitionOf(after, a), k, now);
  }

  lemma ShowsIsShown(operator: Tables, rules: seq<Rule>, before: map<Audience, Tables>, after: map<Audience, Tables>, k: Key, now: Time)
    requires Valid(rules) && Resolve(rules, k).Some? && Recent(operator, k, now) && Shows(operator, before, after, Resolve(rules, k).value, k, now)
    ensures Shown(operator, rules, after, k)
  {
    hide Resolve;
    ShowingIsUpToDate(operator, after[Resolve(rules, k).value], k);
  }

  /** What is decided against the reconciled partitions is decided against those found at the start. */
  lemma DecidedFromStart(operator: Tables, rules: seq<Rule>, before: map<Audience, Tables>, mid: map<Audience, Tables>,
                         after: map<Audience, Tables>, order: seq<Key>, now: Time)
    requires Valid(rules) && mid.Keys == before.Keys && PublishedSoFar(operator, rules, mid, after, order, now)
    requires forall a :: a in mid ==> Withdrawing(operator, rules, a, before[a], mid[a])
    ensures forall k :: k in order && Resolve(rules, k).Some? && Recent(operator, k, now) ==>
      var a := Resolve(rules, k).value;
      && a in after && PublishedAs(operator, PartitionOf(mid, a), after[a], k, now)
      && TextDecided(operator, PartitionOf(before, a), after[a], k)
    ensures forall k :: k in order && Eligible(operator, rules, k, now) ==> Shown(operator, rules, after, k)
  {
    forall k | k in order && Eligible(operator, rules, k, now) ensures Shown(operator, rules, after, k) {
      EligibleExactly(operator, rules, k, now);
      assert Shows(operator, mid, after, Resolve(rules, k).value, k, now);
      ShowsIsShown(operator, rules, mid, after, k, now);
    }
    hide Eligible, Shown;
    hide Resolve, SameText, UpToDate, Withdrawing, PublishedAs, RowKept;
    forall k | k in order && Resolve(rules, k).Some? && Recent(operator, k, now)
      ensures var a := Resolve(rules, k).value;
        && a in after && PublishedAs(operator, PartitionOf(mid, a), after[a], k, now)
        && TextDecided(operator, PartitionOf(before, a), after[a], k)
    {
      var a := Resolve(rules, k).value;
      assert Shows(operator, mid, after, a, k, now);
      if a in mid { ReconciledText(operator, rules, a, before[a], mid[a], k); }
    }
  }

  lemma TextHeld(operator: Tables, t: Tables, k: Key, content: seq<Chunk>)
    requires HasContent(operator.chunks, k, content) && HasContent(t.chunks, k, content)
    ensures SameText(operator, t, k)
  {
  }

  /** In safe partitions no source is shown in two of them. */
  lemma OnePartitionOnly(operator: Tables, rules: seq<Rule>, partitions: map<Audience, Tables>, k: Key, a: Audience,
                         b: Audience)
    requires AudienceRules.Valid(rules) && Safe(operator, rules, partitions) && a in partitions && b in partitions
    requires Listed(partitions[a], k) && Listed(partitions[b], k)
    ensures a == b
  {
    hide Resolve;
    assert Belongs(operator, rules, a, partitions[a], k) && Belongs(operator, rules, b, partitions[b], k);
  }

  /** What a safe partition shows lies nearest to a rule of its audience, where root lengths follow the nesting. */
  lemma ShownByNearestRule(operator: Tables, rules: seq<Rule>, partitions: map<Audience, Tables>, a: Audience, k: Key)
    requires AudienceRules.Valid(rules) && LengthsFollowNesting(rules) && Safe(operator, rules, partitions)
    requires a in partitions && Listed(partitions[a], k) && ScanJournal.WellFormed(k)
    ensures exists i :: Nearest(rules, k, i) && rules[i].audience == Some(a)
  {
    assert Belongs(operator, rules, a, partitions[a], k);
    ChosenIsNearest(rules, k, Pick(rules, k, |rules|).value);
  }
}
