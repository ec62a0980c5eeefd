/**
 What `correct` does to the memory of rejections and corrections. A proposal consults both
 (`RecordProperties.RejectionLasts`, `RecordProperties.CorrectionLasts`); a correction consults
 neither, so it is the one way by which a rejected or corrected statement comes back.
 */
module TombstoneProperties {
  import opened Wrappers
  import opened SourceText
  import opened KnowledgeStore
  import opened KnowledgeRuns
  import opened RecordProperties

  /** The step is a correction that goes through. */
  predicate Corrects(t: Tables, s: Step) {
    s.op.Correct?
    && CorrectionError(t, s.op.id, s.op.revision, s.op.content, s.op.replacement, s.op.authorized, s.now).None?
    && Lists(t, s.op.id, s.op.citations)
  }

  /** The step is a correction that goes through, and its new content, with what it takes over, is this body. */
  predicate CorrectsTo(t: Tables, s: Step, b: Body) {
    Corrects(t, s) && s.op.id in t.records
    && var r := t.records[s.op.id];
       b == Body(r.kind, r.entityType, Text(r.entityKey, false), Text(r.title, false), r.topic,
                 Accept(s.op.content, 8000).value, s.op.citations)
  }

  /** The step is a correction that goes through, and repeats this statement on the same source versions. */
  predicate CorrectsBackTo(t: Tables, s: Step, b: Body) {
    Corrects(t, s) && s.op.id in t.records
    && SameStatement(t.records[s.op.id].(content := Accept(s.op.content, 8000).value), b)
    && CitedVersions(t.dependencies, s.op.id) == StatedVersions(b)
  }

  predicate Added(t: Tables, u: Tables, id: RecordId) {
    id in u.records && id !in t.records
  }

  // ---------------------------------------------------------------- which steps add records

  lemma RemovalAddsNothing(t: Tables, u: Tables, k: Key)
    requires OnlyRemoval(t, u, k)
    ensures u.records.Keys == t.records.Keys
  {
  }

  lemma ReviewAddsNothing(t: Tables, id: RecordId, revision: nat, d: Decision, authorized: bool, now: Time)
    ensures AfterReview(t, id, revision, d, authorized, now).records.Keys == t.records.Keys
  {
    hide ReviewError, MoveEvents, Rivals;
    if ReviewError(t, id, revision, authorized, now).None? { ReviewAdmits(t, id, revision, authorized, now); }
  }

  lemma CorrectionAdds(t: Tables, id: RecordId, replacement: RecordId, content: string, citations: seq<Citation>)
    requires id in t.records && replacement !in t.records
    ensures var u := Corrected(t, id, replacement, content, citations);
      && u.records.Keys == t.records.Keys + {replacement}
      && u.records[replacement] == Replacement(t.records[id], id, content, citations)
      && u.dependencies == t.dependencies + CopiedDependencies(t.dependencies, id, replacement)
  {
    hide Rivals, MoveEvents, CopiedDependencies, Replacement;
  }

  /** Records come from proposals and corrections only. */
  lemma AddingSteps(t: Tables, s: Step)
    ensures var u := Perform(t, s);
      if s.op.Propose? && JudgeProposal(t, s.op.statement, s.op.transportKey, s.op.id, s.now).New? then
        u.records.Keys == t.records.Keys + {s.op.id} && s.op.id !in t.records
      else if Corrects(t, s) then
        u.records.Keys == t.records.Keys + {s.op.replacement} && s.op.replacement !in t.records
      else u.records.Keys == t.records.Keys
  {
    hide Observed, Reindexed, Withdraw, SourceChecked, Reclassified, AfterReview, CorrectionError, Lists, Corrected,
      RemoveContent, CorrectedBefore, Rejection, CitationVerifies, KeyTaken, BodyOf, TransportKey;
    match s.op
    case Observe(e, scan, maxBytes) => ObservedRecords(t, e, scan, s.now, maxBytes); RemovalAddsNothing(t, Perform(t, s), e.key);
    case Index(key, _, sha, chunks, _, structured) =>
      if Indexes(t, s.op) {
        ReindexedRecords(t, key, sha, chunks, structured, s.now);
        RemovalAddsNothing(t, Perform(t, s), key);
      }
    case WithdrawSource(key, reason) => WithdrawnRecords(t, key, reason); RemovalAddsNothing(t, Perform(t, s), key);
    case CheckSource(key, _, _, _, result, _) =>
      if Checks(t, s.op) { CheckedRecords(t, key, result, s.now); RemovalAddsNothing(t, Perform(t, s), key); }
    case Reclassify(key, state, reason) => ReclassifiedRecords(t, key, state, reason); RemovalAddsNothing(t, Perform(t, s), key);
    case Propose(_, _, _) =>
    case Review(id, revision, decision, authorized) => ReviewAddsNothing(t, id, revision, decision, authorized, s.now);
    case Correct(id, revision, content, replacement, citations, authorized) =>
      if Corrects(t, s) {
        CorrectionAdmits(t, id, revision, content, replacement, authorized, s.now);
        CorrectionAdds(t, id, replacement, Accept(content, 8000).value, citations);
      }
  }

  lemma AddedByProposal(t: Tables, s: Step)
    requires s.op.Propose? && JudgeProposal(t, s.op.statement, s.op.transportKey, s.op.id, s.now).New?
    ensures var u := Perform(t, s);
      BodyOf(s.op.statement).Some?
      && var b := BodyOf(s.op.statement).value;
      && !Rejection(t.records, b) && !CorrectedBefore(t, b)
      && s.op.id in u.records && u.records[s.op.id].input == b && SameStatement(u.records[s.op.id], b)
      && (forall q :: SameStatement(u.records[s.op.id], q) ==>
            q.kind == b.kind && q.entityType == b.entityType && q.topic == b.topic && q.content == b.content
            && Accept(q.entityKey, 200) == Accept(b.entityKey, 200))
  {
    hide Rejection, CitationVerifies, CorrectedBefore, KeyTaken, TransportKey, Accept;
  }

  lemma ProposedVersions(t: Tables, s: Step)
    requires s.op.Propose? && JudgeProposal(t, s.op.statement, s.op.transportKey, s.op.id, s.now).New?
    requires Owned(t.dependencies, t.records)
    ensures CitedVersions(Perform(t, s).dependencies, s.op.id) == StatedVersions(BodyOf(s.op.statement).value)
  {
    hide Rejection, CorrectedBefore, KeyTaken, TransportKey, Accept, Verifies, Owned, CitedVersions, StatedVersions;
    FiledVersions(t, BodyOf(s.op.statement).value, s.op.id);
  }

  lemma FiledVersions(t: Tables, b: Body, id: RecordId)
    requires Owned(t.dependencies, t.records) && id !in t.records
    requires forall c :: c in b.citations ==> Accept(c.locator, 500).Some? && Accept(c.quote, 4000).Some?
    ensures CitedVersions(t.dependencies + (set c | c in b.citations :: DependencyOf(id, c)), id) == StatedVersions(b)
  {
    hide Accept;
    var added := set c | c in b.citations :: DependencyOf(id, c);
    forall c | c in b.citations ensures (c.source, c.sha) in CitedVersions(t.dependencies + added, id) {
      assert DependencyOf(id, c) in added;
    }
  }

  lemma AddedByCorrection(t: Tables, s: Step)
    requires Corrects(t, s) && Owned(t.dependencies, t.records)
    ensures var u := Perform(t, s);
      && s.op.Correct? && Accept(s.op.content, 8000).Some? && s.op.id in t.records && s.op.replacement in u.records
      && u.records[s.op.replacement] == Replacement(t.records[s.op.id], s.op.id, Accept(s.op.content, 8000).value, s.op.citations)
      && CitedVersions(u.dependencies, s.op.replacement) == CitedVersions(t.dependencies, s.op.id)
  {
    hide CorrectionError, Lists, Corrected, Accept, Replacement;
    CorrectionAdmits(t, s.op.id, s.op.revision, s.op.content, s.op.replacement, s.op.authorized, s.now);
    CorrectionAdds(t, s.op.id, s.op.replacement, Accept(s.op.content, 8000).value, s.op.citations);
  }

  // ---------------------------------------------------------------- exactly which step brings it back

  /** After any run in which a body was rejected, a step files that body again exactly when it is a correction to it. */
  lemma {:induction false} RejectedReturnsExactly(steps: seq<Step>, s: Step, b: Body)
    requires Rejection(Run(Empty, steps).records, b)
    ensures var t := Run(Empty, steps); var u := Perform(t, s);
      (exists id :: Added(t, u, id) && u.records[id].input == b) <==> CorrectsTo(t, s, b)
  {
    hide Run, Perform, Corrects, Rejection, BodyOf, JudgeProposal, Kept;
    var t := Run(Empty, steps);
    var acts := RunKept(steps);
    KeptParts(t, acts);
    AddingSteps(t, s);
    if s.op.Propose? && JudgeProposal(t, s.op.statement, s.op.transportKey, s.op.id, s.now).New? {
      AddedByProposal(t, s);
    } else if Corrects(t, s) {
      AddedByCorrection(t, s);
      assert CorrectsTo(t, s, b) ==> Added(t, Perform(t, s), s.op.replacement);
    }
  }

  /** After any run in which a statement was corrected on these versions, only a correction files it again on them. */
  lemma {:induction false} CorrectedReturnsExactly(steps: seq<Step>, s: Step, b: Body)
    requires CorrectedBefore(Run(Empty, steps), b)
    ensures var t := Run(Empty, steps); var u := Perform(t, s);
      (exists id :: Added(t, u, id) && SameStatement(u.records[id], b) && CitedVersions(u.dependencies, id) == StatedVersions(b))
      <==> CorrectsBackTo(t, s, b)
  {
    hide Run, Perform, Corrects, CorrectedBefore, BodyOf, JudgeProposal, Kept, CitedVersions, StatedVersions, SameStatement;
    var t := Run(Empty, steps);
    var acts := RunKept(steps);
    KeptParts(t, acts);
    AddingSteps(t, s);
    if s.op.Propose? && JudgeProposal(t, s.op.statement, s.op.transportKey, s.op.id, s.now).New? {
      AddedByProposal(t, s);
      ProposedVersions(t, s);
      var u := Perform(t, s);
      if SameStatement(u.records[s.op.id], b) && CitedVersions(u.dependencies, s.op.id) == StatedVersions(b) {
        SameCorrected(t, b, BodyOf(s.op.statement).value);
      }
    } else if Corrects(t, s) {
      AddedByCorrection(t, s);
      SameReplacement(t.records[s.op.id], s.op.id, Accept(s.op.content, 8000).value, s.op.citations, b);
      assert CorrectsBackTo(t, s, b) ==> Added(t, Perform(t, s), s.op.replacement);
    }
  }

  lemma SameCorrected(t: Tables, b: Body, c: Body)
    requires CorrectedBefore(t, b) && StatedVersions(b) == StatedVersions(c)
    requires b.kind == c.kind && b.entityType == c.entityType && b.topic == c.topic && b.content == c.content
    requires Accept(b.entityKey, 200) == Accept(c.entityKey, 200)
    ensures CorrectedBefore(t, c)
  {
    hide Accept, CitedVersions, StatedVersions;
  }

  lemma SameReplacement(r: Record, id: RecordId, content: string, citations: seq<Citation>, b: Body)
    ensures SameStatement(Replacement(r, id, content, citations), b) <==> SameStatement(r.(content := content), b)
  {
    hide Accept, CorrectionKey;
  }

  // ---------------------------------------------------------------- and that it happens

  const QUOTE := Citation("d", "d", "h", Text("l", false), Text("q", false))

  function QuoteOf(id: RecordId): Dependency {
    Dependency(id, "d", "h", "l", "q")
  }

  function BodyAt(c: char): Body {
    Body(Fact, "company", Text("e", false), Text("t", false), "p", [c], [QUOTE])
  }

  function Answer(c: char, status: Status, revision: nat, key: string): Record {
    Record(Fact, "company", "e", "t", "p", [c], status, revision, key, BodyAt(c))
  }

  function Proposing(c: char, key: string, id: RecordId): Step {
    Step(Propose(Statement(Fact, "company", Text("e", false), Text("t", false), Text("p", false), Text([c], false), [QUOTE]), key, id), 0.0)
  }

  function Correcting(id: RecordId, c: char, replacement: RecordId): Step {
    Step(Correct(id, 1, Text([c], false), replacement, [QUOTE], true), 0.0)
  }

  function Sources(): seq<Step> {
    [Step(Observe(Entry("d", "d", "d", true, 1, "m"), "s", 1), 0.0)]
    + [Step(Index("d", Fingerprint(1, "m"), "h", [Chunk("l", "q")], true, None), 0.0)]
  }

  function Filing(): seq<Step> {
    Sources() + [Proposing('a', "1", "a")]
  }

  function Rejecting(): seq<Step> {
    Filing() + [Step(Review("a", 1, ToReject, true), 0.0)]
  }

  function FilingAgain(): seq<Step> {
    Rejecting() + [Proposing('b', "2", "b")]
  }

  /** A statement is proposed and rejected; another is proposed, and corrected to the rejected one. */
  function Revival(): seq<Step> {
    FilingAgain() + [Correcting("b", 'a', "c")]
  }

  function Reversing(): seq<Step> {
    Filing() + [Correcting("a", 'b', "b")]
  }

  /** A statement is corrected, and the correction is corrected back. */
  function Reversal(): seq<Step> {
    Reversing() + [Correcting("b", 'a', "c")]
  }

  lemma OneCharacter(c: char, limit: nat)
    requires !IsSpace(c) && c as int >= 32 && limit > 0
    ensures Accept(Text([c], false), limit) == Some([c])
  {
    assert TrimLeft([c]) == [c] && TrimRight([c]) == [c];
  }

  lemma SaidBody(c: char)
    requires 'a' <= c <= 'z'
    ensures BodyOf(Proposing(c, "", "").op.statement) == Some(BodyAt(c))
    ensures Accept(Text("e", false), 200) == Some("e") && Accept(Text("t", false), 200) == Some("t")
    ensures Accept(QUOTE.locator, 500) == Some("l") && Accept(QUOTE.quote, 4000) == Some("q")
  {
    hide Accept;
    OneCharacter('e', 200);
    OneCharacter('t', 200);
    OneCharacter('p', 120);
    OneCharacter(c, 8000);
    OneCharacter('l', 500);
    OneCharacter('q', 4000);
  }

  lemma SameAnswer(c: char, r: Record)
    requires 'a' <= c <= 'z' && r == Answer(c, r.status, r.revision, r.idempotencyKey).(input := r.input)
    ensures SameStatement(r, BodyAt(c))
  {
    hide Accept;
    SaidBody(c);
  }

  /** One document, indexed and checked, that holds the quote. */
  ghost predicate Sourced(t: Tables) {
    Verifies(t, "d", "h", "l", "q", 0.0) && t.documents["d"].source == "d"
  }

  lemma SourcedStays(t: Tables, u: Tables)
    requires Sourced(t) && u.documents == t.documents && u.chunks == t.chunks && u.payloads == t.payloads && u.checks == t.checks
    ensures Sourced(u)
  {
    hide Quoted;
  }

  lemma SourceIndexed()
    ensures var t := Run(Empty, Sources());
      Sourced(t) && t.records == map[] && t.dependencies == {} && t.corrections == map[]
  {
    hide AlreadyIndexed, RemoveContent, Reindexed, Quoted;
    var e := Entry("d", "d", "d", true, 1, "m");
    var t := Observed(Empty, e, "s", 0.0, 1);
    var first := Step(Observe(e, "s", 1), 0.0);
    assert Sources()[..1] == [] + [first];
    RunOn([], first);
    assert Run(Empty, Sources()[..1]) == t;
    var op := Index("d", Fingerprint(1, "m"), "h", [Chunk("l", "q")], true, None);
    assert Sources() == Sources()[..1] + [Step(op, 0.0)];
    RunOn(Sources()[..1], Step(op, 0.0));
    assert !IsSpace(op.chunks[0].content[0]);
    FirstIndexed(t, op.chunks);
  }

  lemma FirstIndexed(t: Tables, chunks: seq<Chunk>)
    requires t.documents.Keys == {"d"} && t.documents["d"].source == "d" && t.documents["d"].state.Pending?
    requires t.chunks == map[] && t.nextRow == 0 && t.payloads == map[] && t.checks == map[]
    requires t.records == map[] && t.dependencies == {} && t.corrections == map[] && chunks == [Chunk("l", "q")]
    ensures var u := Reindexed(t, "d", "h", chunks, None, 0.0);
      Sourced(u) && u.records == map[] && u.dependencies == {} && u.corrections == map[]
  {
    hide RemoveContent, SourceCurrent;
    var u := Reindexed(t, "d", "h", chunks, None, 0.0);
    NothingToRemove(t);
    IndexedNow(u);
    assert u.chunks[0] == ChunkRow("d", 0, chunks[0]);
    assert Contains("q", "q") by { assert "q"[0..1] == "q"; }
    assert ChunkQuotes(u.chunks, "d", "l", "q");
  }

  lemma NothingToRemove(t: Tables)
    requires t.chunks == map[] && t.records == map[]
    ensures var u := RemoveContent(t, "d");
      && u.records == map[] && u.chunks == map[] && u.documents == t.documents && u.payloads == t.payloads - {"d"}
      && u.checks == t.checks - {"d"} && u.dependencies == t.dependencies && u.corrections == t.corrections && u.nextRow == t.nextRow
  {
  }

  lemma IndexedNow(t: Tables)
    requires "d" in t.documents && t.documents["d"].state.Indexed? && t.documents["d"].sha == Some("h")
    requires t.documents["d"].indexedAt == Some(0.0) && "d" !in t.checks
    ensures SourceCurrent(t, "d", "h", 0.0)
  {
  }

  lemma Filed(t: Tables, c: char, key: string, id: RecordId)
    requires Sourced(t) && 'a' <= c <= 'z' && TransportKey(key) && !KeyTaken(t.records, key) && id !in t.records
    requires !Rejection(t.records, BodyAt(c)) && t.corrections == map[]
    ensures var u := Perform(t, Proposing(c, key, id));
      && Sourced(u) && u.corrections == map[]
      && u.records == t.records[id := Answer(c, Proposed, 1, key)]
      && u.dependencies == t.dependencies + {QuoteOf(id)}
  {
    hide Accept, Quoted, TransportKey, KeyTaken, Rejection;
    SaidBody(c);
    assert (set q | q in [QUOTE] :: DependencyOf(id, q)) == {DependencyOf(id, QUOTE)} == {QuoteOf(id)};
  }

  lemma Denied(t: Tables, id: RecordId)
    requires Sourced(t) && id in t.records && t.records[id].status.Proposed? && t.records[id].revision == 1
    requires forall d :: d in t.dependencies && d.record == id ==> d == QuoteOf(id)
    ensures var u := Perform(t, Step(Review(id, 1, ToReject, true), 0.0));
      && Sourced(u) && u.dependencies == t.dependencies && u.corrections == t.corrections
      && u.records == t.records[id := t.records[id].(status := Rejected, revision := 2)]
  {
    hide Sourced, StillCited;
    CitedStill(t, id);
    SourcedStays(t, AfterReview(t, id, 1, ToReject, true, 0.0));
  }

  lemma CitedStill(t: Tables, id: RecordId)
    requires Sourced(t) && forall d :: d in t.dependencies && d.record == id ==> d == QuoteOf(id)
    ensures StillCited(t, id, 0.0)
  {
    hide Verifies;
  }

  /** A correction of a record that rests on the one quote goes through, and the source stays. */
  lemma Replaced(t: Tables, id: RecordId, c: char, replacement: RecordId)
    requires Sourced(t) && id in t.records && Active(t.records[id].status) && t.records[id].revision == 1
    requires QuoteOf(id) in t.dependencies && forall d :: d in t.dependencies && d.record == id ==> d == QuoteOf(id)
    requires 'a' <= c <= 'z' && t.records[id].content != [c]
    requires replacement !in t.records && !KeyTaken(t.records, CorrectionKey(id, 1))
    ensures var u := Perform(t, Correcting(id, c, replacement));
      && Sourced(u)
      && u.records.Keys == t.records.Keys + {replacement}
      && u.records[replacement] == Replacement(t.records[id], id, [c], [QUOTE])
      && u.dependencies == t.dependencies + {QuoteOf(replacement)}
      && u.corrections == t.corrections[replacement := Correction(id, 1)]
      && u.records[id] == t.records[id].(status := Superseded, revision := 2)
  {
    hide StillCited, Sourced, Corrected, Accept, KeyTaken, CorrectionKey, Replacement, Lists, CitedVersions;
    OneCharacter(c, 8000);
    CitedStill(t, id);
    OneListed(t, id);
    CorrectionAdds(t, id, replacement, [c], [QUOTE]);
    assert CopiedDependencies(t.dependencies, id, replacement) == {QuoteOf(replacement)};
    CorrectionNotes(t, id, replacement, [c], [QUOTE]);
    SourcedStays(t, Corrected(t, id, replacement, [c], [QUOTE]));
  }

  lemma CorrectionNotes(t: Tables, id: RecordId, replacement: RecordId, content: string, citations: seq<Citation>)
    requires id in t.records && replacement !in t.records
    ensures var u := Corrected(t, id, replacement, content, citations);
      && u.corrections == t.corrections[replacement := Correction(id, t.records[id].revision)]
      && id in u.records && u.records[id] == t.records[id].(status := Superseded, revision := t.records[id].revision + 1)
      && u.documents == t.documents && u.chunks == t.chunks && u.payloads == t.payloads && u.checks == t.checks
  {
    hide Replacement, CopiedDependencies;
  }

  lemma OneListed(t: Tables, id: RecordId)
    requires Sourced(t) && QuoteOf(id) in t.dependencies
    requires forall d :: d in t.dependencies && d.record == id ==> d == QuoteOf(id)
    ensures Lists(t, id, [QUOTE]) && CitedVersions(t.dependencies, id) != {}
  {
    hide Quoted, SourceCurrent;
    assert CitationOf(t, QuoteOf(id)) == QUOTE;
    assert Cited(id, QUOTE) == QuoteOf(id);
    assert ("d", "h") in CitedVersions(t.dependencies, id);
  }

  lemma AfterFiling()
    ensures var t := Run(Empty, Filing());
      && Sourced(t) && t.corrections == map[] && t.dependencies == {QuoteOf("a")}
      && t.records == map["a" := Answer('a', Proposed, 1, "1")]
  {
    hide Sourced, Answer, BodyAt, Perform, Sources, Proposing;
    SourceIndexed();
    var t := Run(Empty, Sources());
    assert TransportKey("1") && !KeyTaken(t.records, "1") && !Rejection(t.records, BodyAt('a'));
    Filed(t, 'a', "1", "a");
    RunOn(Sources(), Proposing('a', "1", "a"));
  }

  lemma AfterFilingAgain()
    ensures var t := Run(Empty, FilingAgain());
      && Sourced(t) && t.dependencies == {QuoteOf("a"), QuoteOf("b")}
      && t.records == map["a" := Answer('a', Rejected, 2, "1"), "b" := Answer('b', Proposed, 1, "2")]
  {
    hide Sourced, BodyAt, Perform, Filing, Proposing;
    AfterFiling();
    Denied(Run(Empty, Filing()), "a");
    RunOn(Filing(), Step(Review("a", 1, ToReject, true), 0.0));
    var t := Run(Empty, Rejecting());
    FreeForB(t);
    Filed(t, 'b', "2", "b");
    RunOn(Rejecting(), Proposing('b', "2", "b"));
  }

  lemma FreeForB(t: Tables)
    requires t.records == map["a" := Answer('a', Rejected, 2, "1")]
    ensures TransportKey("2") && !KeyTaken(t.records, "2") && "b" !in t.records && !Rejection(t.records, BodyAt('b'))
  {
    assert t.records["a"].idempotencyKey[0] == '1';
  }

  lemma NotTaken(records: map<RecordId, Record>, id: RecordId)
    requires forall r :: r in records ==> |records[r].idempotencyKey| == 1
    ensures !KeyTaken(records, CorrectionKey(id, 1))
  {
    assert |CorrectionKey(id, 1)| > 1;
  }

  /** A run ends with a confirmed record of exactly the body that was rejected, and still is. */
  lemma {:induction false} CorrectionRevives()
    ensures var t := Run(Empty, Revival());
      && "a" in t.records && t.records["a"].status == Rejected
      && "c" in t.records && t.records["c"].status == Confirmed
      && t.records["c"].input == t.records["a"].input
  {
    hide Sourced, Perform, FilingAgain, Correcting, CorrectionKey, KeyTaken, Run, Kept;
    var t := Run(Empty, FilingAgain());
    AfterFilingAgain();
    NotTaken(t.records, "b");
    Replaced(t, "b", 'a', "c");
    RunOn(FilingAgain(), Correcting("b", 'a', "c"));
    var acts := RunKept(FilingAgain());
    var after := StepKept(t, Correcting("b", 'a', "c"), acts);
  }

  lemma AfterReversing()
    ensures var t := Run(Empty, Reversing());
      && Sourced(t) && t.dependencies == {QuoteOf("a"), QuoteOf("b")} && t.records.Keys == {"a", "b"}
      && t.records["a"] == Answer('a', Superseded, 2, "1")
      && t.records["b"] == Answer('b', Confirmed, 1, CorrectionKey("a", 1))
      && t.corrections == map["b" := Correction("a", 1)]
  {
    hide Sourced, Perform, Filing, Correcting, CorrectionKey, KeyTaken;
    var t := Run(Empty, Filing());
    AfterFiling();
    NotTaken(t.records, "a");
    Replaced(t, "a", 'b', "b");
    RunOn(Filing(), Correcting("a", 'b', "b"));
  }

  /** A run ends with a confirmed record that repeats a corrected statement on the versions it was corrected on. */
  lemma {:induction false} CorrectionUndone()
    ensures var t := Run(Empty, Reversal());
      && "c" in t.records && t.records["c"].status == Confirmed
      && SameStatement(t.records["c"], BodyAt('a')) && CitedVersions(t.dependencies, "c") == StatedVersions(BodyAt('a'))
      && CorrectedBefore(t, BodyAt('a'))
  {
    hide Sourced, Perform, Reversing, Correcting, SameStatement, CitedVersions, StatedVersions, Evolves, Kept, Run, Accept, CorrectionKey, KeyTaken;
    var t, u := Run(Empty, Reversing()), Run(Empty, Reversal());
    AfterReversing();
    KeyFree(t.records);
    Replaced(t, "b", 'a', "c");
    RunOn(Reversing(), Correcting("b", 'a', "c"));
    var acts := RunKept(Reversing());
    var after := StepKept(t, Correcting("b", 'a', "c"), acts);
    SameAnswer('a', t.records["a"]);
    StillSame(t.records, u.records, "a", BodyAt('a'));
    SameAnswer('a', u.records["c"]);
    OneVersion(u.dependencies, "a");
    OneVersion(u.dependencies, "c");
    assert u.corrections["b"].previous == "a";
  }

  lemma KeyFree(records: map<RecordId, Record>)
    requires records.Keys == {"a", "b"} && records["a"].idempotencyKey == "1" && records["b"].idempotencyKey == CorrectionKey("a", 1)
    ensures !KeyTaken(records, CorrectionKey("b", 1))
  {
    assert |CorrectionKey("b", 1)| > 1;
    assert CorrectionKey("a", 1)[11] != CorrectionKey("b", 1)[11];
  }

  lemma StillSame(before: map<RecordId, Record>, after: map<RecordId, Record>, id: RecordId, b: Body)
    requires Evolves(before, after) && id in before && SameStatement(before[id], b)
    ensures id in after && SameStatement(after[id], b)
  {
    hide Accept;
  }

  lemma OneVersion(dependencies: set<Dependency>, id: RecordId)
    requires QuoteOf(id) in dependencies && forall d :: d in dependencies && d.record == id ==> d == QuoteOf(id)
    ensures CitedVersions(dependencies, id) == StatedVersions(BodyAt('a'))
  {
    assert CitedVersions(dependencies, id) == {("d", "h")};
    assert StatedVersions(BodyAt('a')) == {("d", "h")} by { assert QUOTE in BodyAt('a').citations; }
  }
}
