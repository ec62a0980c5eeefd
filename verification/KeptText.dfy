/**
 The case in which a partition goes on showing an older text: the operator indexes the same
 version of a source again, with other chunks and the same structured content, and the
 partition row still counts as up to date (`Publication.UpToDate`).
 */
module KeptText {
  import opened Wrappers
  import opened SourceText
  import opened KnowledgeStore
  import opened KnowledgeRuns
  import opened Publication
  import CitationProperties
  import IndexProperties

  lemma OrdinalBelow(chunks: map<RowId, ChunkRow>, k: Key, content: seq<Chunk>, i: nat)
    requires HasContent(chunks, k, content) && HasOrdinal(chunks, k, i)
    ensures i < |content|
  {
  }

  lemma NoMore(chunks: map<RowId, ChunkRow>, k: Key, a: seq<Chunk>, b: seq<Chunk>)
    requires HasContent(chunks, k, a) && HasContent(chunks, k, b)
    ensures |a| <= |b|
    ensures forall i :: 0 <= i < |a| ==> a[i] == b[i]
  {
    if a != [] { OrdinalBelow(chunks, k, b, |a| - 1); }
    forall i | 0 <= i < |a| ensures a[i] == b[i] {
      assert HasOrdinal(chunks, k, i);
    }
  }

  /** A document has one content. */
  lemma OneContent(chunks: map<RowId, ChunkRow>, k: Key, a: seq<Chunk>, b: seq<Chunk>)
    requires HasContent(chunks, k, a) && HasContent(chunks, k, b)
    ensures a == b
  {
    hide HasContent;
    NoMore(chunks, k, a, b);
    NoMore(chunks, k, b, a);
  }

  lemma ReindexedRow(t: Tables, k: Key, sha: string, content: seq<Chunk>, structured: Option<Structured>, now: Time)
    requires k in t.documents && t.documents[k].state.Indexed? && t.documents[k].sha == Some(sha) && Stored(t.payloads, k) == structured
    ensures var u := Reindexed(t, k, sha, content, structured, now);
      && k in u.documents && u.documents[k] == t.documents[k].(reason := u.documents[k].reason, indexedAt := u.documents[k].indexedAt)
      && Stored(u.payloads, k) == structured
  {
    hide AlreadyIndexed, RowsOf, SearchRowsOf, RemoveContent;
    RemovalScope(t, k);
  }

  lemma ReindexedContent(t: Tables, k: Key, sha: string, content: seq<Chunk>, structured: Option<Structured>, now: Time)
    requires k in t.documents && 0 < |content| <= 2000 && Healthy(t)
    ensures HasContent(Reindexed(t, k, sha, content, structured, now).chunks, k, content)
    ensures Reindexed(t, k, sha, content, structured, now).documents.Keys == t.documents.Keys
    ensures Reindexed(t, k, sha, content, structured, now).documents[k].state.Indexed?
  {
    hide IndexProperties.Agrees, HasContent, RowsOf, SearchRowsOf, RemoveContent;
    var held :| IndexProperties.Agrees(t.documents, t, held);
    IndexProperties.IndexingAgrees(t, k, sha, content, structured, now, held);
    RemovalScope(t, k);
    HeldContent(Reindexed(t, k, sha, content, structured, now), k, held[k := content]);
  }

  lemma HeldContent(t: Tables, k: Key, content: map<Key, seq<Chunk>>)
    requires IndexProperties.Agrees(t.documents, t, content) && k in t.documents && t.documents[k].state.Indexed?
    ensures k in content && HasContent(t.chunks, k, content[k])
  {
    hide HasContent, IndexProperties.Mirrors, IndexProperties.RowsPlaced, IndexProperties.Versioned, IndexProperties.PayloadsCurrent;
  }

  /** Indexing an up-to-date version again leaves the partition up to date, and with the same text only if it is the same. */
  lemma IndexedAgain(operator: Tables, t: Tables, k: Key, before: seq<Chunk>, after: seq<Chunk>, now: Time)
    requires Healthy(operator) && UpToDate(operator, t, k) && operator.documents[k].sha.Some? && HasContent(t.chunks, k, before)
    requires 0 < |after| <= 2000
    ensures var later := Reindexed(operator, k, operator.documents[k].sha.value, after, Stored(operator.payloads, k), now);
      UpToDate(later, t, k) && (SameText(later, t, k) <==> after == before)
  {
    hide HasContent, Healthy, Reindexed;
    var sha, structured := operator.documents[k].sha.value, Stored(operator.payloads, k);
    var later := Reindexed(operator, k, sha, after, structured, now);
    ReindexedRow(operator, k, sha, after, structured, now);
    ReindexedContent(operator, k, sha, after, structured, now);
    if after == before { TextHeld(later, t, k, after); }
    if SameText(later, t, k) {
      var content :| HasContent(later.chunks, k, content) && HasContent(t.chunks, k, content);
      OneContent(later.chunks, k, content, after);
      OneContent(t.chunks, k, content, before);
    }
  }

  // ---------------------------------------------------------------- and that it happens

  function Indexing(text: string): Step {
    Step(Index("d", Fingerprint(1, "m"), "h", [Chunk("l", text)], true, None), 0.0)
  }

  function Seen(): seq<Step> {
    [Step(Observe(Entry("d", "d", "d", true, 1, "m"), "s", 1), 0.0)]
  }

  function Once(): seq<Step> {
    Seen() + [Indexing("q")]
  }

  function Twice(): seq<Step> {
    Once() + [Indexing("r")]
  }

  /** Any run of a catalogue leaves a healthy store. */
  lemma {:induction false} RunHealthy(steps: seq<Step>)
    ensures Healthy(Run(Empty, steps))
  {
    hide IndexProperties.Agrees, CitationProperties.Live, Run;
    IndexProperties.RunAgrees(steps);
    CitationProperties.RunLive(steps);
  }

  ghost predicate Holding(t: Tables, text: string) {
    && Healthy(t) && t.documents.Keys == {"d"} && Indexable(t.documents, "d", Fingerprint(1, "m"))
    && t.documents["d"].state.Indexed? && t.documents["d"].sha == Some("h") && Stored(t.payloads, "d") == None
    && HasContent(t.chunks, "d", [Chunk("l", text)])
  }

  lemma IndexedHolding(t: Tables, text: string)
    requires Healthy(t) && t.documents.Keys == {"d"} && Indexable(t.documents, "d", Fingerprint(1, "m"))
    requires Stored(t.payloads, "d") == None && (text == "q" || text == "r")
    requires t.documents["d"].state.Indexed? ==> t.documents["d"].sha == Some("h")
    ensures Perform(t, Indexing(text)) == Reindexed(t, "d", "h", [Chunk("l", text)], None, 0.0)
  {
    hide Reindexed, Healthy;
    assert !IsSpace(text[0]);
  }

  lemma IndexedOnce()
    ensures Holding(Run(Empty, Once()), "q")
  {
    hide Reindexed, Healthy, HasContent;
    var e := Entry("d", "d", "d", true, 1, "m");
    var t := Observed(Empty, e, "s", 0.0, 1);
    RunOn([], Step(Observe(e, "s", 1), 0.0));
    assert [] + [Step(Observe(e, "s", 1), 0.0)] == Seen();
    assert Run(Empty, Seen()) == t;
    RunHealthy(Seen());
    RunHealthy(Once());
    RunOn(Seen(), Indexing("q"));
    IndexedHolding(t, "q");
    ReindexedContent(t, "d", "h", [Chunk("l", "q")], None, 0.0);
    FirstRow(t, [Chunk("l", "q")]);
  }

  lemma FirstRow(t: Tables, content: seq<Chunk>)
    requires "d" in t.documents && t.documents["d"].fingerprint == Fingerprint(1, "m") && t.documents["d"].state.Pending? && t.payloads == map[]
    ensures var u := Reindexed(t, "d", "h", content, None, 0.0);
      && "d" in u.documents && u.documents["d"].sha == Some("h") && u.documents["d"].fingerprint == Fingerprint(1, "m")
      && Stored(u.payloads, "d") == None
  {
    hide AlreadyIndexed, RowsOf, SearchRowsOf, RemoveContent;
    PendingIsNotIndexed(t, "d", "h", content, None);
    RemovalScope(t, "d");
  }

  /**
   After a run that indexes a version a second time, with another text, the partition published from
   the first text counts as up to date, and what it shows is still the first text.
   */
  lemma OldTextKept()
    ensures var first, second := Run(Empty, Once()), Run(Empty, Twice());
      && "d" in first.documents && first.documents["d"].sha.Some?
      && var t := Copied(first, Empty, "d", [Chunk("l", "q")], 0.0);
      && UpToDate(second, t, "d") && !SameText(second, t, "d")
      && HasContent(second.chunks, "d", [Chunk("l", "r")]) && HasContent(t.chunks, "d", [Chunk("l", "q")])
  {
    hide HasContent, Healthy, Reindexed, Copied, SameText, UpToDate, Run;
    var first, second := Run(Empty, Once()), Run(Empty, Twice());
    var q, r := [Chunk("l", "q")], [Chunk("l", "r")];
    IndexedOnce();
    RunOn(Once(), Indexing("r"));
    IndexedHolding(first, "r");
    EmptyHealthy();
    CopiedShape(first, Empty, "d", q, 0.0);
    IndexedAgain(first, Copied(first, Empty, "d", q, 0.0), "d", q, r, 0.0);
    ReindexedContent(first, "d", "h", r, None, 0.0);
    assert q[0].content[0] != r[0].content[0];
  }
}
