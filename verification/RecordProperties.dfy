/**
 The life of knowledge records over whole runs: the event log rebuilds every record, at most
 one answer to a question is confirmed, a record that has left review never changes again,
 and a proposal that was rejected or corrected stays refused.
 */
module RecordProperties {
  import opened Wrappers
  import opened SourceText
  import opened KnowledgeStore
  import opened KnowledgeRuns

  // ---------------------------------------------------------------- the lifecycle, and folding a log

  /** The life of a record: only an active record acts, and only a confirmed one is superseded by a rival. */
  function Next(s: Status, a: Action): Option<Status> {
    if !Active(s) then None
    else
      match a
      case Confirm => Some(Confirmed)
      case Reject => Some(Rejected)
      case Delete => Some(Deleted)
      case CorrectedAction => Some(Superseded)
      case SourceInvalidated => Some(Stale)
      case SupersededAction => if s.Confirmed? then Some(Superseded) else None
      case _ => None
  }

  function Born(a: Action): Option<Status> {
    if a.ProposedAction? then Some(Proposed) else if a.CorrectionConfirmed? then Some(Confirmed) else None
  }

  function Replay(acts: seq<Action>): Option<Status> {
    if acts == [] then None
    else if |acts| == 1 then Born(acts[0])
    else
      var s := Replay(acts[..|acts| - 1]);
      if s.Some? then Next(s.value, acts[|acts| - 1]) else None
  }

  predicate InLog(acts: map<RecordId, seq<Action>>, e: Event) {
    e.record in acts && 1 <= e.revision <= |acts[e.record]| && acts[e.record][e.revision - 1] == e.action
  }

  ghost predicate Rebuilt(records: map<RecordId, Record>, acts: map<RecordId, seq<Action>>) {
    && acts.Keys == records.Keys
    && forall r :: r in records ==> |acts[r]| == records[r].revision && Replay(acts[r]) == Some(records[r].status)
  }

  /** The event table holds each revision of each record once, and nothing else. */
  ghost predicate Holds(events: multiset<Event>, acts: map<RecordId, seq<Action>>) {
    forall e: Event :: events[e] == if InLog(acts, e) then 1 else 0
  }

  function Acted(acts: map<RecordId, seq<Action>>, ids: set<RecordId>, a: Action): map<RecordId, seq<Action>> {
    map r | r in acts :: if r in ids then acts[r] + [a] else acts[r]
  }

  lemma MovedRebuilt(records: map<RecordId, Record>, acts: map<RecordId, seq<Action>>, ids: set<RecordId>,
                     status: Status, a: Action)
    requires Rebuilt(records, acts)
    requires forall r :: r in ids && r in records ==> Next(records[r].status, a) == Some(status)
    ensures Rebuilt(Moved(records, ids, status), Acted(acts, ids, a))
  {
    forall r | r in records && r in ids ensures Replay(acts[r] + [a]) == Some(status) {
      assert (acts[r] + [a])[..|acts[r]|] == acts[r];
    }
  }

  lemma MovedHolds(records: map<RecordId, Record>, events: multiset<Event>, acts: map<RecordId, seq<Action>>,
                   ids: set<RecordId>, a: Action)
    requires Rebuilt(records, acts) && Holds(events, acts)
    ensures Holds(events + multiset(MoveEvents(records, ids, a)), Acted(acts, ids, a))
  {
    hide Replay;
    var moved := MoveEvents(records, ids, a);
    forall e: Event ensures (events + multiset(moved))[e] == if InLog(Acted(acts, ids, a), e) then 1 else 0 {
      if e.record in ids && e.record in records && e.revision == records[e.record].revision + 1 && e.action == a {
        assert e in moved;
      }
    }
  }

  lemma BornHolds(events: multiset<Event>, acts: map<RecordId, seq<Action>>, id: RecordId, a: Action)
    requires Holds(events, acts) && id !in acts
    ensures Holds(events + multiset{Event(id, 1, a)}, acts[id := [a]])
  {
    forall e: Event ensures (events + multiset{Event(id, 1, a)})[e] == if InLog(acts[id := [a]], e) then 1 else 0 {
    }
  }

  // ---------------------------------------------------------------- what the record tables keep

  ghost predicate OneAnswer(records: map<RecordId, Record>) {
    forall a, b :: a in records && b in records && records[a].status.Confirmed? && records[b].status.Confirmed?
                   && SameQuestion(records[a], records[b])
                   ==> a == b
  }

  ghost predicate UniqueKeys(records: map<RecordId, Record>) {
    forall a, b :: a in records && b in records && records[a].idempotencyKey == records[b].idempotencyKey ==> a == b
  }

  ghost predicate Owned(dependencies: set<Dependency>, records: map<RecordId, Record>) {
    forall d :: d in dependencies ==> d.record in records
  }

  ghost predicate CorrectedOnce(corrections: map<RecordId, Correction>, records: map<RecordId, Record>) {
    && (forall c :: c in corrections ==> c in records && corrections[c].previous in records
                                         && records[corrections[c].previous].status.Superseded?)
    && (forall c, e :: c in corrections && e in corrections && corrections[c].previous == corrections[e].previous ==> c == e)
  }

  ghost predicate Kept(t: Tables, acts: map<RecordId, seq<Action>>) {
    && Rebuilt(t.records, acts) && Holds(t.events, acts)
    && OneAnswer(t.records) && UniqueKeys(t.records) && Owned(t.dependencies, t.records) && CorrectedOnce(t.corrections, t.records)
  }

  ghost predicate SameRecords(t: Tables, u: Tables) {
    t.records == u.records && t.dependencies == u.dependencies && t.corrections == u.corrections && t.events == u.events
  }

  /** No record is lost, what identifies it never changes, and outside review it does not change at all. */
  ghost predicate Evolves(before: map<RecordId, Record>, after: map<RecordId, Record>) {
    forall r :: r in before ==>
      && r in after
      && after[r] == before[r].(status := after[r].status, revision := after[r].revision)
      && before[r].revision <= after[r].revision
      && (!Active(before[r].status) ==> after[r] == before[r])
  }

  // ---------------------------------------------------------------- the ways the record tables change

  lemma MovedSound(records: map<RecordId, Record>, ids: set<RecordId>, status: Status)
    requires OneAnswer(records) && UniqueKeys(records) && !Active(status)
    requires forall r :: r in ids && r in records ==> Active(records[r].status)
    ensures OneAnswer(Moved(records, ids, status)) && UniqueKeys(Moved(records, ids, status))
    ensures Evolves(records, Moved(records, ids, status)) && Moved(records, ids, status).Keys == records.Keys
  {
    var moved := Moved(records, ids, status);
    forall a, b | a in moved && b in moved && moved[a].status.Confirmed? && moved[b].status.Confirmed? && SameQuestion(moved[a], moved[b])
      ensures a == b
    {
      assert SameQuestion(records[a], records[b]);
    }
    forall a, b | a in moved && b in moved && moved[a].idempotencyKey == moved[b].idempotencyKey ensures a == b {
      assert records[a].idempotencyKey == records[b].idempotencyKey;
    }
  }

  lemma StillOwned(t: Tables, after: map<RecordId, Record>)
    requires Owned(t.dependencies, t.records) && CorrectedOnce(t.corrections, t.records) && Evolves(t.records, after)
    ensures Owned(t.dependencies, after) && CorrectedOnce(t.corrections, after)
  {
  }

  /** A change of content takes every active record that cites the document out of force, with one event each. */
  lemma InvalidationKept(t: Tables, k: Key, acts: map<RecordId, seq<Action>>)
    requires Kept(t, acts)
    ensures Kept(RemoveContent(t, k), Acted(acts, Citing(t, k), SourceInvalidated))
    ensures Evolves(t.records, RemoveContent(t, k).records)
  {
    hide Rebuilt, Holds, OneAnswer, UniqueKeys, Owned, CorrectedOnce, Evolves, Moved, MoveEvents;
    var ids := Citing(t, k);
    MovedRebuilt(t.records, acts, ids, Stale, SourceInvalidated);
    MovedHolds(t.records, t.events, acts, ids, SourceInvalidated);
    MovedSound(t.records, ids, Stale);
    StillOwned(t, Moved(t.records, ids, Stale));
  }

  lemma SupersedingKept(t: Tables, id: RecordId, acts: map<RecordId, seq<Action>>)
    requires Kept(t, acts) && id in t.records
    ensures Kept(Superseding(t, Rivals(t.records, id)), Acted(acts, Rivals(t.records, id), SupersededAction))
    ensures Evolves(t.records, Superseding(t, Rivals(t.records, id)).records)
  {
    hide Rebuilt, Holds, OneAnswer, UniqueKeys, Owned, CorrectedOnce, Evolves, Moved, MoveEvents;
    var ids := Rivals(t.records, id);
    MovedRebuilt(t.records, acts, ids, Superseded, SupersededAction);
    MovedHolds(t.records, t.events, acts, ids, SupersededAction);
    MovedSound(t.records, ids, Superseded);
    StillOwned(t, Moved(t.records, ids, Superseded));
  }

  lemma DecidedIsMoved(t: Tables, id: RecordId, a: Action, status: Status)
    requires id in t.records
    ensures Decided(t, id, a, status).records == Moved(t.records, {id}, status)
    ensures Decided(t, id, a, status).events == t.events + multiset(MoveEvents(t.records, {id}, a))
  {
    hide Moved, MoveEvents;
    OneMoved(t.records, id, status);
    OneEvent(t.records, id, a);
  }

  lemma OneMoved(records: map<RecordId, Record>, id: RecordId, status: Status)
    requires id in records
    ensures Moved(records, {id}, status) == records[id := records[id].(status := status, revision := records[id].revision + 1)]
  {
  }

  lemma OneEvent(records: map<RecordId, Record>, id: RecordId, a: Action)
    requires id in records
    ensures multiset(MoveEvents(records, {id}, a)) == multiset{Event(id, records[id].revision + 1, a)}
  {
    assert MoveEvents(records, {id}, a) == {Event(id, records[id].revision + 1, a)};
  }

  lemma ClosedKept(t: Tables, id: RecordId, a: Action, status: Status, acts: map<RecordId, seq<Action>>)
    requires Kept(t, acts) && id in t.records && Next(t.records[id].status, a) == Some(status) && !Active(status)
    ensures Kept(Decided(t, id, a, status), Acted(acts, {id}, a))
    ensures Evolves(t.records, Decided(t, id, a, status).records)
  {
    hide Rebuilt, Holds, OneAnswer, UniqueKeys, Owned, CorrectedOnce, Evolves, Moved, MoveEvents;
    DecidedIsMoved(t, id, a, status);
    MovedRebuilt(t.records, acts, {id}, status, a);
    MovedHolds(t.records, t.events, acts, {id}, a);
    MovedSound(t.records, {id}, status);
    StillOwned(t, Moved(t.records, {id}, status));
  }

  /** Confirming is sound because the rivals were superseded first. */
  lemma ConfirmedSound(records: map<RecordId, Record>, id: RecordId)
    requires id in records && Active(records[id].status) && OneAnswer(records) && UniqueKeys(records) && Rivals(records, id) == {}
    ensures OneAnswer(Moved(records, {id}, Confirmed)) && UniqueKeys(Moved(records, {id}, Confirmed))
    ensures Evolves(records, Moved(records, {id}, Confirmed))
  {
    var moved := Moved(records, {id}, Confirmed);
    forall r | r in records && r != id && records[r].status.Confirmed? ensures !SameQuestion(records[r], records[id]) {
      assert r !in Rivals(records, id);
    }
    forall a, b | a in moved && b in moved && moved[a].status.Confirmed? && moved[b].status.Confirmed? && SameQuestion(moved[a], moved[b])
      ensures a == b
    {
      assert SameQuestion(records[a], records[b]) && SameQuestion(records[b], records[a]);
    }
    forall a, b | a in moved && b in moved && moved[a].idempotencyKey == moved[b].idempotencyKey ensures a == b {
      assert records[a].idempotencyKey == records[b].idempotencyKey;
    }
  }

  lemma ConfirmKept(t: Tables, id: RecordId, acts: map<RecordId, seq<Action>>)
    requires Kept(t, acts) && id in t.records && Active(t.records[id].status) && Rivals(t.records, id) == {}
    ensures Kept(Decided(t, id, Confirm, Confirmed), Acted(acts, {id}, Confirm))
    ensures Evolves(t.records, Decided(t, id, Confirm, Confirmed).records)
  {
    hide Rebuilt, Holds, OneAnswer, UniqueKeys, Owned, CorrectedOnce, Evolves, Moved, MoveEvents, Rivals;
    DecidedIsMoved(t, id, Confirm, Confirmed);
    MovedRebuilt(t.records, acts, {id}, Confirmed, Confirm);
    MovedHolds(t.records, t.events, acts, {id}, Confirm);
    ConfirmedSound(t.records, id);
    StillOwned(t, Moved(t.records, {id}, Confirmed));
  }

  lemma EvolvesOn(a: map<RecordId, Record>, b: map<RecordId, Record>, c: map<RecordId, Record>)
    requires Evolves(a, b) && Evolves(b, c)
    ensures Evolves(a, c)
  {
    forall r | r in a
      ensures r in c && c[r] == a[r].(status := c[r].status, revision := c[r].revision) && a[r].revision <= c[r].revision
              && (!Active(a[r].status) ==> c[r] == a[r])
    {
      assert r in b;
    }
  }

  lemma BornSound(records: map<RecordId, Record>, id: RecordId, r: Record)
    requires OneAnswer(records) && UniqueKeys(records) && id !in records && !KeyTaken(records, r.idempotencyKey)
    requires r.status.Confirmed? ==>
               forall q :: q in records && records[q].status.Confirmed? ==> !SameQuestion(records[q], r)
    ensures OneAnswer(records[id := r]) && UniqueKeys(records[id := r]) && Evolves(records, records[id := r])
  {
    var all := records[id := r];
    forall a, b | a in all && b in all && all[a].status.Confirmed? && all[b].status.Confirmed? && SameQuestion(all[a], all[b]) ensures a == b {
      assert SameQuestion(all[b], all[a]);
    }
  }

  lemma BornRebuilt(records: map<RecordId, Record>, id: RecordId, r: Record, a: Action, acts: map<RecordId,
                    seq<Action>>)
    requires Rebuilt(records, acts) && id !in records && r.revision == 1 && Born(a) == Some(r.status)
    ensures Rebuilt(records[id := r], acts[id := [a]])
  {
    assert Replay([a]) == Born(a);
  }

  /** A new record enters the tables with one event; when it enters confirmed, no rival may be. */
  lemma BornKept(t: Tables, u: Tables, id: RecordId, a: Action, acts: map<RecordId, seq<Action>>)
    requires Kept(t, acts) && id !in t.records && id in u.records && u.records == t.records[id := u.records[id]]
    requires u.events == t.events + multiset{Event(id, 1, a)} && u.records[id].revision == 1 && Born(a) == Some(u.records[id].status)
    requires !KeyTaken(t.records, u.records[id].idempotencyKey)
    requires u.records[id].status.Confirmed? ==>
               forall r :: r in t.records && t.records[r].status.Confirmed? ==> !SameQuestion(t.records[r], u.records[id])
    requires t.dependencies <= u.dependencies && forall d :: d in u.dependencies - t.dependencies ==> d.record == id
    requires CorrectedOnce(u.corrections, u.records)
    ensures Kept(u, acts[id := [a]]) && Evolves(t.records, u.records)
  {
    hide OneAnswer, UniqueKeys, CorrectedOnce, Evolves, Replay, Born, Holds, Rebuilt;
    assert id !in acts by { assert acts.Keys == t.records.Keys by { MatchingKeys(t.records, acts); } }
    BornHolds(t.events, acts, id, a);
    BornRebuilt(t.records, id, u.records[id], a, acts);
    BornSound(t.records, id, u.records[id]);
  }

  lemma MatchingKeys(records: map<RecordId, Record>, acts: map<RecordId, seq<Action>>)
    requires Rebuilt(records, acts)
    ensures acts.Keys == records.Keys
  {
  }

  // ---------------------------------------------------------------- every operation

  ghost predicate OnlyRemoval(t: Tables, u: Tables, k: Key) {
    SameRecords(u, t) || SameRecords(u, RemoveContent(t, k))
  }

  lemma ObservedRecords(t: Tables, e: Entry, scan: string, now: Time, maxBytes: nat)
    ensures OnlyRemoval(t, Observed(t, e, scan, now, maxBytes), e.key)
  {
    hide RemoveContent;
  }

  lemma ReindexedRecords(t: Tables, k: Key, sha: string, chunks: seq<Chunk>, structured: Option<Structured>, now: Time)
    requires k in t.documents
    ensures OnlyRemoval(t, Reindexed(t, k, sha, chunks, structured, now), k)
  {
    hide RemoveContent, AlreadyIndexed, RowsOf, SearchRowsOf;
    assert RemoveContent(t, k).documents == t.documents by { RemovalKeepsRows(t, k); }
  }

  lemma RemovalKeepsRows(t: Tables, k: Key)
    ensures RemoveContent(t, k).documents == t.documents
  {
  }

  lemma CheckedRecords(t: Tables, k: Key, r: CheckResult, now: Time)
    requires k in t.documents
    ensures OnlyRemoval(t, SourceChecked(t, k, r, now), k)
  {
    hide RemoveContent, Changed, CarriedCheck;
  }

  lemma WithdrawnRecords(t: Tables, k: Key, reason: Reason)
    ensures OnlyRemoval(t, Withdraw(t, k, reason), k)
  {
    hide RemoveContent;
  }

  lemma ReclassifiedRecords(t: Tables, k: Key, state: DocState, reason: Reason)
    ensures OnlyRemoval(t, Reclassified(t, k, state, reason), k)
  {
    hide RemoveContent;
  }

  lemma SameKept(t: Tables, u: Tables, acts: map<RecordId, seq<Action>>)
    requires Kept(t, acts) && SameRecords(t, u)
    ensures Kept(u, acts) && Evolves(t.records, u.records)
  {
    hide Rebuilt, Holds, OneAnswer, UniqueKeys, Owned, CorrectedOnce;
  }

  /** The operations on sources touch the record tables only through the removal of a document's content. */
  lemma SourceOperationKept(t: Tables, u: Tables, k: Key, acts: map<RecordId,
                            seq<Action>>) returns (after: map<RecordId, seq<Action>>)
    requires Kept(t, acts) && OnlyRemoval(t, u, k)
    ensures Kept(u, after) && Evolves(t.records, u.records)
  {
    hide Kept, Evolves, RemoveContent;
    if SameRecords(u, t) {
      SameKept(t, u, acts);
      after := acts;
    } else {
      InvalidationKept(t, k, acts);
      after := Acted(acts, Citing(t, k), SourceInvalidated);
      SameKept(RemoveContent(t, k), u, after);
    }
  }

  lemma StepKept(t: Tables, s: Step, acts: map<RecordId, seq<Action>>) returns (after: map<RecordId, seq<Action>>)
    requires Kept(t, acts)
    ensures Kept(Perform(t, s), after) && Evolves(t.records, Perform(t, s).records)
  {
    hide Kept, Evolves, SameRecords, OnlyRemoval, Observed, Reindexed, Withdraw, SourceChecked, Reclassified,
      JudgeProposal, AfterReview, AfterCorrection;
    after := acts;
    SameEvolves(t.records);
    match s.op
    case Observe(e, scan, maxBytes) =>
      ObservedRecords(t, e, scan, s.now, maxBytes);
      after := SourceOperationKept(t, Perform(t, s), e.key, acts);
    case Index(key, _, sha, chunks, _, structured) =>
      if Indexes(t, s.op) {
        ReindexedRecords(t, key, sha, chunks, structured, s.now);
        after := SourceOperationKept(t, Perform(t, s), key, acts);
      }
    case WithdrawSource(key, reason) =>
      WithdrawnRecords(t, key, reason);
      after := SourceOperationKept(t, Perform(t, s), key, acts);
    case CheckSource(key, _, _, _, result, _) =>
      if Checks(t, s.op) {
        CheckedRecords(t, key, result, s.now);
        after := SourceOperationKept(t, Perform(t, s), key, acts);
      }
    case Reclassify(key, state, reason) =>
      ReclassifiedRecords(t, key, state, reason);
      after := SourceOperationKept(t, Perform(t, s), key, acts);
    case Propose(statement, key, id) =>
      if JudgeProposal(t, statement, key, id, s.now).New? {
        ProposalKept(t, statement, key, id, s.now, acts);
        after := acts[id := [ProposedAction]];
      }
    case Review(id, revision, decision, authorized) =>
      after := ReviewKept(t, id, revision, decision, authorized, s.now, acts);
    case Correct(id, revision, content, replacement, citations, authorized) =>
      after := CorrectionKept(t, id, revision, content, replacement, citations, authorized, s.now, acts);
  }

  lemma ProposalKept(t: Tables, s: Statement, key: string, id: RecordId, now: Time, acts: map<RecordId, seq<Action>>)
    requires Kept(t, acts) && JudgeProposal(t, s, key, id, now).New?
    ensures var u := AfterProposal(t, s, key, id, now); Kept(u, acts[id := [ProposedAction]]) && Evolves(t.records, u.records)
  {
    hide Rebuilt, Holds, OneAnswer, UniqueKeys, Evolves, Accept, CitationVerifies, CorrectedBefore, Rejection, TransportKey;
    var u := AfterProposal(t, s, key, id, now);
    BornKept(t, u, id, ProposedAction, acts);
  }

  lemma ReviewKept(t: Tables, id: RecordId, revision: nat, d: Decision, authorized: bool, now: Time,
                   acts: map<RecordId, seq<Action>>)
    returns (after: map<RecordId, seq<Action>>)
    requires Kept(t, acts)
    ensures var u := AfterReview(t, id, revision, d, authorized, now); Kept(u, after) && Evolves(t.records, u.records)
  {
    hide Kept, Evolves, ReviewError, Rivals, Decided, Superseding;
    after := acts;
    if ReviewError(t, id, revision, authorized, now).None? {
      ReviewAdmits(t, id, revision, authorized, now);
      if d.ToConfirm? {
        var rivals := Rivals(t.records, id);
        var v := Superseding(t, rivals);
        SupersedingKept(t, id, acts);
        SupersededRivals(t, id);
        ConfirmKept(v, id, Acted(acts, rivals, SupersededAction));
        EvolvesOn(t.records, v.records, Decided(v, id, Confirm, Confirmed).records);
        after := Acted(Acted(acts, rivals, SupersededAction), {id}, Confirm);
      } else {
        ClosedKept(t, id, DecisionAction(d), DecisionStatus(d), acts);
        after := Acted(acts, {id}, DecisionAction(d));
      }
    } else {
      SameEvolves(t.records);
    }
  }

  lemma SameEvolves(records: map<RecordId, Record>)
    ensures Evolves(records, records)
  {
  }

  lemma SupersededRivals(t: Tables, id: RecordId)
    requires id in t.records
    ensures var u := Superseding(t, Rivals(t.records, id));
      id in u.records && u.records[id] == t.records[id] && Rivals(u.records, id) == {}
  {
  }

  lemma KeptParts(t: Tables, acts: map<RecordId, seq<Action>>)
    requires Kept(t, acts)
    ensures CorrectedOnce(t.corrections, t.records) && Owned(t.dependencies, t.records)
  {
  }

  lemma KeyStaysFree(before: map<RecordId, Record>, after: map<RecordId, Record>, key: string)
    requires Evolves(before, after) && before.Keys == after.Keys && !KeyTaken(before, key)
    ensures !KeyTaken(after, key)
  {
    forall r | r in after ensures after[r].idempotencyKey != key {
      assert before[r].idempotencyKey == after[r].idempotencyKey;
    }
  }

  /** The state in between: rivals superseded, the corrected record closed. */
  function Closed(t: Tables, id: RecordId): Tables
    requires id in t.records
  {
    Decided(Superseding(t, Rivals(t.records, id)), id, CorrectedAction, Superseded)
  }

  lemma ClosedShape(t: Tables, id: RecordId)
    requires id in t.records
    ensures var w := Closed(t, id);
      && w.records.Keys == t.records.Keys && w.dependencies == t.dependencies && w.corrections == t.corrections
      && w.records[id] == t.records[id].(status := Superseded, revision := t.records[id].revision + 1)
      && (forall r :: r in w.records && w.records[r].status.Confirmed? ==> !SameQuestion(w.records[r], t.records[id]))
  {
    SupersededRivals(t, id);
    forall r | r in Closed(t, id).records && Closed(t, id).records[r].status.Confirmed?
      ensures !SameQuestion(Closed(t, id).records[r], t.records[id])
    {
      assert r !in Rivals(Superseding(t, Rivals(t.records, id)).records, id);
    }
  }

  lemma CorrectionNoted(corrections: map<RecordId, Correction>, before: map<RecordId, Record>, after: map<RecordId,
                        Record>, id: RecordId,
                        replacement: RecordId, revision: nat)
    requires CorrectedOnce(corrections, before) && id in before && Active(before[id].status) && replacement !in before
    requires Evolves(before, after) && replacement in after && after[id].status.Superseded?
    ensures CorrectedOnce(corrections[replacement := Correction(id, revision)], after)
  {
  }

  lemma ReplacementKept(t: Tables, id: RecordId, replacement: RecordId, content: string, citations: seq<Citation>,
                        acts: map<RecordId, seq<Action>>)
    requires id in t.records && Active(t.records[id].status) && CorrectedOnce(t.corrections, t.records)
    requires Kept(Closed(t, id), acts) && Evolves(t.records, Closed(t, id).records)
    requires replacement !in t.records && !KeyTaken(t.records, CorrectionKey(id, t.records[id].revision))
    ensures var u := Corrected(t, id, replacement, content, citations);
      Kept(u, acts[replacement := [CorrectionConfirmed]]) && Evolves(Closed(t, id).records, u.records)
  {
    hide Kept, Evolves, Rivals, Decided, Superseding, CorrectedOnce, CorrectionKey, KeyTaken;
    var w, u := Closed(t, id), Corrected(t, id, replacement, content, citations);
    ClosedShape(t, id);
    KeyStaysFree(t.records, w.records, CorrectionKey(id, t.records[id].revision));
    EvolvesOn(t.records, w.records, u.records);
    CorrectionNoted(t.corrections, t.records, u.records, id, replacement, t.records[id].revision);
    BornKept(w, u, replacement, CorrectionConfirmed, acts);
  }

  lemma CorrectionKept(t: Tables, id: RecordId, revision: nat, content: Text, replacement: RecordId,
                       citations: seq<Citation>,
                       authorized: bool, now: Time, acts: map<RecordId, seq<Action>>) returns (after: map<RecordId, seq<Action>>)
    requires Kept(t, acts)
    ensures var u := AfterCorrection(t, id, revision, content, replacement, citations, authorized, now);
      Kept(u, after) && Evolves(t.records, u.records)
  {
    hide Kept, Evolves, CorrectionError, Rivals, Decided, Superseding, Accept, Lists;
    after := acts;
    if CorrectionError(t, id, revision, content, replacement, authorized, now).None? && Lists(t, id, citations) {
      CorrectionAdmits(t, id, revision, content, replacement, authorized, now);
      var rivals := Rivals(t.records, id);
      var v := Superseding(t, rivals);
      SupersedingKept(t, id, acts);
      SupersededRivals(t, id);
      var w := Closed(t, id);
      var closed := Acted(Acted(acts, rivals, SupersededAction), {id}, CorrectedAction);
      ClosedKept(v, id, CorrectedAction, Superseded, Acted(acts, rivals, SupersededAction));
      EvolvesOn(t.records, v.records, w.records);
      var u := Corrected(t, id, replacement, Accept(content, 8000).value, citations);
      assert CorrectedOnce(t.corrections, t.records) by { KeptParts(t, acts); }
      ReplacementKept(t, id, replacement, Accept(content, 8000).value, citations, closed);
      EvolvesOn(t.records, w.records, u.records);
      after := closed[replacement := [CorrectionConfirmed]];
    } else {
      SameEvolves(t.records);
    }
  }

  // ---------------------------------------------------------------- over whole runs

  lemma {:induction false} RunKept(steps: seq<Step>) returns (acts: map<RecordId, seq<Action>>)
    ensures Kept(Run(Empty, steps), acts)
  {
    hide Kept, Perform;
    if steps == [] {
      acts := map[];
      EmptyKept();
    } else {
      var before := RunKept(steps[..|steps| - 1]);
      acts := StepKept(Run(Empty, steps[..|steps| - 1]), steps[|steps| - 1], before);
    }
  }

  lemma EmptyKept()
    ensures Kept(Empty, map[])
  {
  }

  /**
   After any run the event table is the log of some actions per record, each revision from 1 on
   exactly once and nothing else, and folding a record's actions gives its revision and status.
   */
  lemma {:induction false} EventLogRebuilds(steps: seq<Step>)
    ensures exists acts :: Rebuilt(Run(Empty, steps).records, acts) && Holds(Run(Empty, steps).events, acts)
  {
    hide Rebuilt, Holds, Run;
    var acts := RunKept(steps);
  }

  /**
   After any run each revision of a record has exactly one event, the first of them files it, and the
   last one tells its status.
   */
  lemma {:induction false} LastEventTells(steps: seq<Step>, r: RecordId, n: nat) returns (a: Action)
    requires r in Run(Empty, steps).records && 1 <= n <= Run(Empty, steps).records[r].revision
    ensures var t := Run(Empty, steps);
      && (forall b :: t.events[Event(r, n, b)] == if b == a then 1 else 0)
      && (n == 1 <==> a.ProposedAction? || a.CorrectionConfirmed?)
      && (n == t.records[r].revision ==>
            t.records[r].status == match a
                                   case ProposedAction => Proposed
                                   case Confirm => Confirmed
                                   case CorrectionConfirmed => Confirmed
                                   case Reject => Rejected
                                   case Delete => Deleted
                                   case SupersededAction => Superseded
                                   case CorrectedAction => Superseded
                                   case SourceInvalidated => Stale)
  {
    hide Run;
    var acts := RunKept(steps);
    a := acts[r][n - 1];
    ReplayTells(acts[r], n);
  }

  lemma {:induction false} ReplayTells(acts: seq<Action>, n: nat)
    requires Replay(acts).Some? && 1 <= n <= |acts|
    ensures n == 1 <==> acts[n - 1].ProposedAction? || acts[n - 1].CorrectionConfirmed?
    ensures Replay(acts) == Some(match acts[|acts| - 1]
                                 case ProposedAction => Proposed
                                 case Confirm => Confirmed
                                 case CorrectionConfirmed => Confirmed
                                 case Reject => Rejected
                                 case Delete => Deleted
                                 case SupersededAction => Superseded
                                 case CorrectedAction => Superseded
                                 case SourceInvalidated => Stale)
  {
    if n < |acts| { ReplayTells(acts[..|acts| - 1], n); }
  }

  /** After any run a question has at most one confirmed answer, no transport key names two records, and none is corrected twice. */
  lemma {:induction false} OneConfirmedAnswer(steps: seq<Step>)
    ensures var t := Run(Empty, steps);
      && (forall a, b :: a in t.records && b in t.records && t.records[a].status.Confirmed? && t.records[b].status.Confirmed? ==>
            t.records[a].kind == t.records[b].kind && t.records[a].entityType == t.records[b].entityType ==>
            t.records[a].entityKey == t.records[b].entityKey && t.records[a].topic == t.records[b].topic ==> a == b)
      && (forall a, b :: a in t.records && b in t.records && t.records[a].idempotencyKey == t.records[b].idempotencyKey ==> a == b)
      && (forall c :: c in t.corrections ==>
            c in t.records && t.corrections[c].previous in t.records && t.records[t.corrections[c].previous].status.Superseded?)
      && (forall c, e :: c in t.corrections && e in t.corrections && t.corrections[c].previous == t.corrections[e].previous ==> c == e)
  {
    hide Rebuilt, Holds, Run;
    var acts := RunKept(steps);
  }

  /**
   Whatever happens after a run: no record disappears, its content and origin never change, its
   revision never falls, and a rejected, deleted, superseded or stale record stays as it is.
   */
  lemma {:induction false} SettledNeverLeft(a: seq<Step>, b: seq<Step>)
    ensures Evolves(Run(Empty, a).records, Run(Empty, a + b).records)
    ensures var t, u := Run(Empty, a).records, Run(Empty, a + b).records;
      forall r :: r in t ==>
        && r in u && u[r].(status := t[r].status, revision := t[r].revision) == t[r] && u[r].revision >= t[r].revision
        && (t[r].status.Rejected? || t[r].status.Deleted? || t[r].status.Superseded? || t[r].status.Stale? ==> u[r] == t[r])
  {
    RunsEvolve(a, b);
  }

  lemma {:induction false} RunsEvolve(a: seq<Step>, b: seq<Step>)
    ensures Evolves(Run(Empty, a).records, Run(Empty, a + b).records)
  {
    hide Evolves, Kept, Perform;
    if b == [] {
      assert a + b == a;
      SameEvolves(Run(Empty, a).records);
    } else {
      var before := a + b[..|b| - 1];
      assert (a + b)[..|a + b| - 1] == before;
      RunsEvolve(a, b[..|b| - 1]);
      var acts := RunKept(before);
      var after := StepKept(Run(Empty, before), b[|b| - 1], acts);
      EvolvesOn(Run(Empty, a).records, Run(Empty, before).records, Run(Empty, a + b).records);
    }
  }

  /** A user's rejection or deletion of a proposal stands: no later proposal of the same body gets in. */
  lemma {:induction false} RejectionLasts(a: seq<Step>, b: seq<Step>, s: Statement, key: string, id: RecordId,
                                          now: Time)
    requires BodyOf(s).Some? && Rejection(Run(Empty, a).records, BodyOf(s).value)
    ensures AfterProposal(Run(Empty, a + b), s, key, id, now) == Run(Empty, a + b)
  {
    hide Run, BodyOf, CitationVerifies, CorrectedBefore, KeyTaken, TransportKey;
    RunsEvolve(a, b);
    var r :| r in Run(Empty, a).records && Run(Empty, a).records[r].input == BodyOf(s).value
             && (Run(Empty, a).records[r].status.Rejected? || Run(Empty, a).records[r].status.Deleted?);
    assert Run(Empty, a + b).records[r] == Run(Empty, a).records[r];
  }

  // ---------------------------------------------------------------- corrected statements

  /** Dependencies and corrections of the records that exist are never touched again. */
  ghost predicate Remembers(t: Tables, u: Tables) {
    && (forall d: Dependency :: d.record in t.records ==> (d in t.dependencies <==> d in u.dependencies))
    && (forall c :: c in t.corrections ==> c in u.corrections && u.corrections[c] == t.corrections[c])
  }

  lemma StepRemembers(t: Tables, s: Step, acts: map<RecordId, seq<Action>>)
    requires Kept(t, acts)
    ensures Remembers(t, Perform(t, s))
  {
    hide Observed, Reindexed, Withdraw, SourceChecked, Reclassified, AfterProposal, AfterReview, AfterCorrection, RemoveContent, Kept;
    KeptParts(t, acts);
    match s.op
    case Observe(e, scan, maxBytes) =>
      ObservedRecords(t, e, scan, s.now, maxBytes); RemovalRemembers(t, e.key);
    case Index(key, _, sha, chunks, _, structured) =>
      if Indexes(t, s.op) { ReindexedRecords(t, key, sha, chunks, structured, s.now); RemovalRemembers(t, key); }
    case WithdrawSource(key, reason) => WithdrawnRecords(t, key, reason); RemovalRemembers(t, key);
    case CheckSource(key, _, _, _, result, _) =>
      if Checks(t, s.op) { CheckedRecords(t, key, result, s.now); RemovalRemembers(t, key); }
    case Reclassify(key, state, reason) => ReclassifiedRecords(t, key, state, reason); RemovalRemembers(t, key);
    case Propose(statement, key, id) => ProposalRemembers(t, statement, key, id, s.now);
    case Review(id, revision, decision, authorized) => ReviewRemembers(t, id, revision, decision, authorized, s.now);
    case Correct(id, revision, content, replacement, citations, authorized) =>
      CorrectionRemembers(t, id, revision, content, replacement, citations, authorized, s.now);
  }

  lemma RemovalRemembers(t: Tables, k: Key)
    ensures Remembers(t, RemoveContent(t, k))
  {
  }

  lemma ProposalRemembers(t: Tables, s: Statement, key: string, id: RecordId, now: Time)
    ensures Remembers(t, AfterProposal(t, s, key, id, now))
  {
    hide BodyOf, CitationVerifies, CorrectedBefore, KeyTaken, Rejection, TransportKey;
  }

  lemma ReviewRemembers(t: Tables, id: RecordId, revision: nat, d: Decision, authorized: bool, now: Time)
    ensures Remembers(t, AfterReview(t, id, revision, d, authorized, now))
  {
    hide ReviewError, Moved, MoveEvents;
    if ReviewError(t, id, revision, authorized, now).None? { ReviewAdmits(t, id, revision, authorized, now); }
  }

  lemma CorrectionRemembers(t: Tables, id: RecordId, revision: nat, content: Text, replacement: RecordId,
                            citations: seq<Citation>,
                            authorized: bool, now: Time)
    requires CorrectedOnce(t.corrections, t.records)
    ensures Remembers(t, AfterCorrection(t, id, revision, content, replacement, citations, authorized, now))
  {
    hide CorrectionError, Lists, Decided, Superseding, Rivals, Accept, Replacement;
    if CorrectionError(t, id, revision, content, replacement, authorized, now).None? {
      CorrectionAdmits(t, id, revision, content, replacement, authorized, now);
    }
  }

  lemma {:induction false} RunRemembers(a: seq<Step>, b: seq<Step>)
    ensures Remembers(Run(Empty, a), Run(Empty, a + b))
  {
    hide Perform, Kept, Remembers, Evolves;
    if b == [] {
      assert a + b == a;
      SameRemembers(Run(Empty, a));
    } else {
      var before := a + b[..|b| - 1];
      assert (a + b)[..|a + b| - 1] == before;
      RunRemembers(a, b[..|b| - 1]);
      RunsEvolve(a, b[..|b| - 1]);
      var acts := RunKept(before);
      StepRemembers(Run(Empty, before), b[|b| - 1], acts);
      RemembersOn(Run(Empty, a), Run(Empty, before), Run(Empty, a + b));
    }
  }

  lemma SameRemembers(t: Tables)
    ensures Remembers(t, t)
  {
  }

  lemma RemembersOn(t: Tables, u: Tables, v: Tables)
    requires Remembers(t, u) && Remembers(u, v) && Evolves(t.records, u.records)
    ensures Remembers(t, v)
  {
  }

  /** A corrected statement does not come back on the source versions it was corrected on. */
  lemma {:induction false} CorrectionLasts(a: seq<Step>, b: seq<Step>, s: Statement, key: string, id: RecordId,
                                           now: Time)
    requires BodyOf(s).Some? && CorrectedBefore(Run(Empty, a), BodyOf(s).value)
    ensures AfterProposal(Run(Empty, a + b), s, key, id, now) == Run(Empty, a + b)
  {
    hide Run, BodyOf, CitationVerifies, KeyTaken, TransportKey, Rejection, Accept;
    RunsEvolve(a, b);
    RunRemembers(a, b);
    var t, u, body := Run(Empty, a), Run(Empty, a + b), BodyOf(s).value;
    var c :| c in t.corrections && t.corrections[c].previous in t.records
             && SameStatement(t.records[t.corrections[c].previous], body)
             && CitedVersions(t.dependencies, t.corrections[c].previous) == StatedVersions(body);
    var previous := t.corrections[c].previous;
    assert u.corrections[c].previous == previous && SameStatement(u.records[previous], body);
    assert CitedVersions(u.dependencies, previous) == CitedVersions(t.dependencies, previous);
    assert CorrectedBefore(u, body);
  }
}
