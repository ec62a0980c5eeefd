/**
 A restored store stays closed behind a gate file until every published source was checked
 again under the policy in force. A session that finds another policy, or another backup, than
 its progress file names first invalidates every check and then begins a new generation.
 Policy digests are injective, so a policy stands for its digest.
 */
module RecoveryGate {
  import opened Wrappers
  import opened KnowledgeStore
  import opened AudienceRules
  import Catalogue
  import K = KnowledgeRuns
  import Publication
  import SourceEffects
  import IndexProperties
  import CitationProperties

  datatype Policy = Policy(rules: seq<Rule>, access: string)
  datatype Progress = Progress(backup: string, policy: Policy, beganAt: Time)

  // What one running process holds between its durable writes. A finalize goes on from `Ready`: it
  // has read the policy again, and then listed what awaits a check again, at a time.
  datatype Session =
    | Entering(policy: Policy) | Cleared(policy: Policy) | Ready(policy: Policy)
    | Reconfirmed(policy: Policy) | Relisted(policy: Policy, at: Time)

  // A source that was found unchanged, and the generation it was found in.
  datatype Seen = Seen(key: Key, sha: string, at: Time, generation: Progress)

  datatype State = State(store: Tables, gate: Option<string>, progress: Option<Progress>, session: Option<Session>,
                         policy: Policy, seen: set<Seen>)

  datatype Step =
    | SetPolicy(policy: Policy)                                          // the host changes bindings or access
    | Open | Invalidate | Begin(now: Time)                               // a session starts
    | CheckOne(key: Key, result: CheckResult, now: Time, maxBytes: nat)  // one document of a batch
    | Leave                                                              // the session ends, or the process dies
    | Reread | Relist(now: Time) | Unlink                                // the end of a finalize, step by step

  predicate Current(s: State, policy: Policy) {
    s.progress.Some? && s.gate.Some? && s.progress.value.policy == policy && s.progress.value.backup == s.gate.value
  }

  predicate Awaits(t: Tables, rules: seq<Rule>, beganAt: Time, now: Time, k: Key)
    requires AudienceRules.Valid(rules)
  {
    && k in t.documents && t.documents[k].state.Indexed? && Resolve(rules, k).Some?
    && (k !in t.checks || t.checks[k].verifiedAt.None? || t.checks[k].verifiedAt.value < beganAt
        || t.documents[k].sha.None? || !SourceCurrent(t, k, t.documents[k].sha.value, now))
  }

  function AwaitingChecks(t: Tables, rules: seq<Rule>, beganAt: Time, now: Time): set<Key>
    requires AudienceRules.Valid(rules)
  {
    set k | k in t.documents && Awaits(t, rules, beganAt, now, k)
  }

  // The empty stamp, older than any check.
  const NEVER: Time := 0.0

  function Invalidated(t: Tables): Tables {
    t.(checks := t.checks + map k | k in t.documents && t.documents[k].state.Indexed? :: Check(NEVER, None, UnavailableOutcome, None))
  }

  /** A check of an indexed document counts when it found the source as indexed. */
  function Sighting(t: Tables, k: Key, r: CheckResult, now: Time, generation: Progress): set<Seen>
    requires k in t.documents
  {
    if r.Present? && !Changed(t.documents[k], r) then {Seen(k, r.sha, now, generation)} else {}
  }

  function Perform(s: State, step: Step): State {
    match step
    case SetPolicy(p) => s.(policy := p)
    case Open =>
      if s.session.None? && s.gate.Some? && AudienceRules.Valid(s.policy.rules)
      then s.(session := Some(if Current(s, s.policy) then Ready(s.policy) else Entering(s.policy))) else s
    case Invalidate =>
      if s.session.Some? && s.session.value.Entering?
      then s.(store := Invalidated(s.store), session := Some(Cleared(s.session.value.policy))) else s
    case Begin(now) =>
      if s.session.Some? && s.session.value.Cleared? && s.gate.Some?
      then s.(progress := Some(Progress(s.gate.value, s.session.value.policy, now)), session := Some(Ready(s.session.value.policy))) else s
    case CheckOne(k, result, now, maxBytes) =>
      if s.session.Some? && s.session.value.Ready? && s.progress.Some? && k in s.store.documents && s.store.documents[k].state.Indexed?
         && CheckAcceptable(result, maxBytes)
      then s.(store := SourceChecked(s.store, k, result, now), seen := s.seen + Sighting(s.store, k, result, now, s.progress.value)) else s
    case Leave => s.(session := None)
    case Reread =>
      if s.session.Some? && s.session.value.Ready?
      then s.(session := if s.policy == s.session.value.policy then Some(Reconfirmed(s.policy)) else None) else s
    case Relist(now) =>
      if s.session.Some? && s.session.value.Reconfirmed? && s.progress.Some? && AudienceRules.Valid(s.session.value.policy.rules)
      then s.(session := if AwaitingChecks(s.store, s.session.value.policy.rules, s.progress.value.beganAt, now) == {}
                         then Some(Relisted(s.session.value.policy, now)) else None)
      else s
    case Unlink => if s.session.Some? && s.session.value.Relisted? then s.(gate := None, session := None) else s
  }

  function Run(s: State, steps: seq<Step>): State {
    if steps == [] then s else Perform(Run(s, steps[..|steps| - 1]), steps[|steps| - 1])
  }

  // ---------------------------------------------------------------- what every step keeps

  /** A verification that still counts was seen in the current generation. */
  ghost predicate Witnessed(t: Tables, generation: Progress, seen: set<Seen>) {
    forall k :: k in t.documents && t.documents[k].state.Indexed? && k in t.checks && t.checks[k].verifiedAt.Some? ==>
      && t.checks[k].sha.Some?
      && Seen(k, t.checks[k].sha.value, t.checks[k].verifiedAt.value, generation) in seen
  }

  ghost predicate AllRows(t: Tables) {
    forall k :: k in t.documents && t.documents[k].state.Indexed? ==> k in t.checks
  }

  ghost predicate AllCleared(t: Tables) {
    forall k :: k in t.documents && t.documents[k].state.Indexed? ==> k in t.checks && t.checks[k].verifiedAt.None?
  }

  predicate Working(session: Session) {
    session.Ready? || session.Reconfirmed? || session.Relisted?
  }

  ghost predicate NothingAwaits(s: State, policy: Policy, at: Time) {
    && s.progress.Some? && AudienceRules.Valid(policy.rules)
    && AwaitingChecks(s.store, policy.rules, s.progress.value.beganAt, at) == {}
  }

  ghost predicate Inv(s: State) {
    && (s.progress.Some? ==> AllRows(s.store) && Witnessed(s.store, s.progress.value, s.seen))
    && (s.session.Some? && s.session.value.Cleared? ==> AllCleared(s.store))
    && (s.session.Some? && Working(s.session.value) ==> Current(s, s.session.value.policy))
    && (s.session.Some? && s.session.value.Relisted? ==> NothingAwaits(s, s.session.value.policy, s.session.value.at))
  }

  lemma InvalidatedClears(t: Tables)
    ensures AllCleared(Invalidated(t))
  {
  }

  lemma CheckedRow(t: Tables, k: Key, r: CheckResult, now: Time)
    requires k in t.documents && k in t.checks
    ensures var u := SourceChecked(t, k, r, now);
      k in u.documents && k in u.checks
      && (u.documents[k].state.Indexed? && u.checks[k].verifiedAt.Some? ==>
            if r.Present? then !Changed(t.documents[k], r) && u.checks[k].verifiedAt == Some(now) && u.checks[k].sha == Some(r.sha)
            else u.checks[k].verifiedAt == t.checks[k].verifiedAt && u.checks[k].sha == t.checks[k].sha && u.documents[k] == t.documents[k])
  {
    hide RemoveContent, Changed;
    Publication.RemovalScope(t, k);
  }

  lemma CheckKeeps(t: Tables, k: Key, r: CheckResult, now: Time, generation: Progress, seen: set<Seen>)
    requires k in t.documents && t.documents[k].state.Indexed? && AllRows(t) && Witnessed(t, generation, seen)
    ensures var u := SourceChecked(t, k, r, now); AllRows(u) && Witnessed(u, generation, seen + Sighting(t, k, r, now, generation))
  {
    hide SourceChecked, Changed;
    SourceEffects.CheckScope(t, k, r, now);
    CheckedRow(t, k, r, now);
  }

  lemma StepKeeps(s: State, step: Step)
    requires Inv(s)
    ensures Inv(Perform(s, step))
  {
    hide AllRows, Witnessed, AllCleared, SourceChecked, Invalidated, Sighting, AudienceRules.Valid, AwaitingChecks;
    match step
    case Invalidate =>
      InvalidatedClears(s.store);
      ClearedKeeps(Invalidated(s.store), s.seen);
    case Begin(now) =>
      if s.session.Some? && s.session.value.Cleared? { ClearedKeeps(s.store, s.seen); }
    case CheckOne(k, result, now, maxBytes) =>
      if k in s.store.documents && s.store.documents[k].state.Indexed? && s.progress.Some? {
        CheckKeeps(s.store, k, result, now, s.progress.value, s.seen);
      }
    case _ =>
  }

  lemma ClearedKeeps(t: Tables, seen: set<Seen>)
    requires AllCleared(t)
    ensures AllRows(t) && forall generation :: Witnessed(t, generation, seen)
  {
  }

  lemma {:induction false} RunKeeps(s: State, steps: seq<Step>)
    requires Inv(s)
    ensures Inv(Run(s, steps))
  {
    hide Inv, Perform;
    if steps != [] {
      RunKeeps(s, steps[..|steps| - 1]);
      StepKeeps(Run(s, steps[..|steps| - 1]), steps[|steps| - 1]);
    }
  }

  /** The state right after a restore: closed, nothing begun, no session. The restored checks may say anything. */
  predicate Restored(s: State) {
    s.gate.Some? && s.progress.None? && s.session.None?
  }

  /**
   Over any sequence of sessions, batches, policy changes and crashes from a restore on: when the
   gate is unlinked, every indexed document with an audience under the policy that was read again
   was found present, with the digest it is indexed at, in the generation of that policy, no earlier
   than it began and within a day of the second listing.
   */
  lemma {:induction false} GateOpensOnlyChecked(s: State, steps: seq<Step>, k: Key)
    requires Restored(s) && Run(s, steps).gate.Some? && Perform(Run(s, steps), Unlink).gate.None?
    ensures var u := Run(s, steps);
      && u.session.Some? && u.session.value.Relisted? && u.progress.Some?
      && var policy, listed := u.session.value.policy, u.session.value.at;
      && u.progress.value.policy == policy && u.progress.value.backup == u.gate.value && AudienceRules.Valid(policy.rules)
      && (k in u.store.documents && u.store.documents[k].state.Indexed? && Resolve(policy.rules, k).Some? ==>
            && u.store.documents[k].sha.Some?
            && exists at :: Seen(k, u.store.documents[k].sha.value, at, u.progress.value) in u.seen
                            && u.progress.value.beganAt <= at && 0.0 <= listed - at <= MAX_AGE)
  {
    hide Run, AudienceRules.Valid, Resolve;
    RunKeeps(s, steps);
    var u := Run(s, steps);
    var policy := u.session.value.policy;
    if k in u.store.documents && u.store.documents[k].state.Indexed? && Resolve(policy.rules, k).Some? {
      assert k !in AwaitingChecks(u.store, policy.rules, u.progress.value.beganAt, u.session.value.at);
      var check := u.store.checks[k];
      assert Seen(k, check.sha.value, check.verifiedAt.value, u.progress.value) in u.seen;
    }
  }

  /** The last policy the host was given in a stretch of steps. */
  function LastSet(steps: seq<Step>): Option<Policy> {
    if steps == [] then None
    else if steps[|steps| - 1].SetPolicy? then Some(steps[|steps| - 1].policy)
    else LastSet(steps[..|steps| - 1])
  }

  /** Step `i` is the re-read that the session's confirmation comes from. */
  ghost predicate ReadAgainAt(s: State, steps: seq<Step>, i: int, policy: Policy) {
    && 0 <= i < |steps| && steps[i].Reread? && Run(s, steps[..i]).policy == policy
    && Run(s, steps).policy == (if LastSet(steps[i + 1..]).Some? then LastSet(steps[i + 1..]).value else policy)
  }

  lemma {:induction false} ReadAgain(s: State, steps: seq<Step>) returns (i: int)
    requires s.session.None? && Run(s, steps).session.Some?
    requires Run(s, steps).session.value.Reconfirmed? || Run(s, steps).session.value.Relisted?
    ensures ReadAgainAt(s, steps, i, Run(s, steps).session.value.policy)
  {
    hide AudienceRules.Valid, AwaitingChecks, SourceChecked, Invalidated, Sighting;
    var last := |steps| - 1;
    var before := steps[..last];
    if steps[last].Reread? && Run(s, before).session.Some? && Run(s, before).session.value.Ready? {
      i := last;
      assert steps[i + 1..] == [];
    } else {
      i := ReadAgain(s, before);
      assert steps[..i] == before[..i];
      assert steps[i + 1..][..last - i - 1] == before[i + 1..];
    }
  }

  /**
   The policy on the host when the gate is unlinked is the one that was checked, if and only if no
   other policy was set after the re-read, or that one was set back.
   */
  lemma {:induction false} InForceExactly(s: State, steps: seq<Step>) returns (i: int)
    requires Restored(s) && Run(s, steps).gate.Some? && Perform(Run(s, steps), Unlink).gate.None?
    ensures var u := Run(s, steps);
      && u.session.Some? && ReadAgainAt(s, steps, i, u.session.value.policy)
      && (u.policy == u.session.value.policy <==> LastSet(steps[i + 1..]) in {None, Some(u.session.value.policy)})
  {
    hide Run, LastSet;
    i := ReadAgain(s, steps);
  }

  lemma {:induction false} NoRulesNoAudience(t: Tables, beganAt: Time, now: Time)
    ensures AwaitingChecks(t, [], beganAt, now) == {}
  {
  }

  /**
   The other case exists, from any restore whose first policy publishes nothing: a policy set between
   the re-read and the unlink is in force when the gate opens, and what it publishes was never checked.
   */
  lemma {:induction false} OpenedUnderAnotherPolicy(s: State, policy: Policy, k: Key)
    requires Restored(s) && s.policy.rules == [] && s.seen == {}
    requires AudienceRules.Valid(policy.rules) && Resolve(policy.rules, k).Some?
    requires k in s.store.documents && s.store.documents[k].state.Indexed?
    ensures var steps := [Open, Invalidate, Begin(1.0), Reread, Relist(2.0), SetPolicy(policy), Unlink];
      var u := Run(s, steps);
      && u.gate.None? && u.policy == policy && k in u.store.documents && u.store.documents[k].state.Indexed?
      && u.seen == {} && u.progress.Some? && u.progress.value.policy != policy
  {
    hide Invalidated, AwaitingChecks, SourceChecked, Sighting, Resolve;
    assert policy.rules != [] by { EmptyResolves(k); }
    var cleared := Invalidated(s.store);
    InvalidatedChecksOnly(s.store);
    var progress := Progress(s.gate.value, s.policy, 1.0);
    var ready := s.(store := cleared, progress := Some(progress), session := Some(Ready(s.policy)));
    NoRulesNoAudience(cleared, 1.0, 2.0);
    assert Perform(Perform(Perform(s, Open), Invalidate), Begin(1.0)) == ready;
    var listed := ready.(session := Some(Relisted(s.policy, 2.0)));
    assert Perform(Perform(ready, Reread), Relist(2.0)) == listed;
    assert Perform(Perform(listed, SetPolicy(policy)), Unlink) == listed.(policy := policy, gate := None, session := None);
    SevenSteps(s, Open, Invalidate, Begin(1.0), Reread, Relist(2.0), SetPolicy(policy), Unlink);
  }

  lemma EmptyResolves(k: Key)
    ensures Resolve([], k).None?
  {
  }

  lemma {:induction false} SevenSteps(s: State, a: Step, b: Step, c: Step, d: Step, e: Step, f: Step, g: Step)
    ensures Run(s, [a, b, c, d, e, f, g])
            == Perform(Perform(Perform(Perform(Perform(Perform(Perform(s, a), b), c), d), e), f), g)
  {
    hide Run, Perform;
    One(s, a);
    More(s, [a], b);
    More(s, [a] + [b], c);
    More(s, [a] + [b] + [c], d);
    More(s, [a] + [b] + [c] + [d], e);
    More(s, [a] + [b] + [c] + [d] + [e], f);
    More(s, [a] + [b] + [c] + [d] + [e] + [f], g);
    assert [a] + [b] + [c] + [d] + [e] + [f] + [g] == [a, b, c, d, e, f, g];
  }

  lemma GateStep(s: State, step: Step)
    ensures s.gate.None? ==> Perform(s, step).gate.None?
    ensures s.gate.Some? && Perform(s, step).gate.None? ==> step.Unlink? && s.session.Some? && s.session.value.Relisted?
  {
    hide AudienceRules.Valid, AwaitingChecks, SourceChecked, Invalidated;
  }

  /** A gate that a run finds open was unlinked once, by a session that had listed nothing waiting, and stayed open. */
  lemma {:induction false} GateOpenedOnce(s: State, steps: seq<Step>) returns (i: int)
    requires s.gate.Some? && Run(s, steps).gate.None?
    ensures 0 <= i < |steps| && steps[i].Unlink?
    ensures Run(s, steps[..i]).gate.Some? && Run(s, steps[..i]).session.Some? && Run(s, steps[..i]).session.value.Relisted?
    ensures forall j :: i < j <= |steps| ==> Run(s, steps[..j]).gate.None?
  {
    hide Perform;
    var last := |steps| - 1;
    var before := steps[..last];
    GateStep(Run(s, before), steps[last]);
    if Run(s, before).gate.None? {
      i := GateOpenedOnce(s, before);
      assert steps[..i] == before[..i];
      forall j | i < j <= |steps| ensures Run(s, steps[..j]).gate.None? {
        if j <= last { assert steps[..j] == before[..j]; } else { assert steps[..j] == steps; }
      }
    } else {
      i := last;
      assert steps[..|steps|] == steps;
    }
  }

  /** What was seen was really checked: a sighting appears only in a check that found that digest. */
  lemma SightingsAreChecks(s: State, step: Step, e: Seen)
    requires e in Perform(s, step).seen && e !in s.seen
    ensures step.CheckOne? && step.key == e.key && step.result.Present? && step.result.sha == e.sha && step.now == e.at
    ensures s.progress == Some(e.generation) && e.key in s.store.documents && s.store.documents[e.key].sha == Some(e.sha)
  {
    hide AudienceRules.Valid, AwaitingChecks, SourceChecked, Invalidated;
  }

  // ---------------------------------------------------------------- the sessions the program runs

  /** Every published document was verified since the generation began, at its digest and within a day of this moment. */
  ghost predicate AllVerified(t: Tables, rules: seq<Rule>, beganAt: Time, now: Time)
    requires AudienceRules.Valid(rules)
  {
    forall k :: k in t.documents && t.documents[k].state.Indexed? && Resolve(rules, k).Some? ==>
      && k in t.checks && t.checks[k].verifiedAt.Some? && beganAt <= t.checks[k].verifiedAt.value
      && t.documents[k].sha.Some? && t.checks[k].sha == t.documents[k].sha
      && now - 86400.0 <= t.checks[k].verifiedAt.value <= now
  }

  /** A published document of which that cannot be said. */
  predicate Unverified(t: Tables, rules: seq<Rule>, beganAt: Time, now: Time, k: Key)
    requires AudienceRules.Valid(rules)
  {
    && k in t.documents && t.documents[k].state.Indexed? && Resolve(rules, k).Some?
    && !(k in t.checks && t.checks[k].verifiedAt.Some? && beganAt <= t.checks[k].verifiedAt.value
         && t.documents[k].sha.Some? && t.checks[k].sha == t.documents[k].sha
         && now - 86400.0 <= t.checks[k].verifiedAt.value <= now)
  }

  lemma AwaitingExactly(t: Tables, rules: seq<Rule>, beganAt: Time, now: Time)
    requires AudienceRules.Valid(rules)
    ensures forall k :: k in AwaitingChecks(t, rules, beganAt, now) <==> Unverified(t, rules, beganAt, now, k)
    ensures AwaitingChecks(t, rules, beganAt, now) == {} <==> AllVerified(t, rules, beganAt, now)
  {
    hide AudienceRules.Valid, Resolve;
    forall k ensures Awaits(t, rules, beganAt, now, k) <==> Unverified(t, rules, beganAt, now, k) {
    }
    hide Awaits;
    if AwaitingChecks(t, rules, beganAt, now) == {} {
      forall k | k in t.documents && t.documents[k].state.Indexed? && Resolve(rules, k).Some? ensures !Unverified(t, rules, beganAt, now, k) {
        assert k !in AwaitingChecks(t, rules, beganAt, now);
      }
    }
  }

  /** The new generation of a session: every check of an indexed document is void, and nothing else changed. */
  ghost predicate Voided(t: Tables, u: Tables) {
    && u == t.(checks := u.checks)
    && (forall k :: k in t.documents && t.documents[k].state.Indexed? ==> k in u.checks && u.checks[k] == Check(0.0, None, UnavailableOutcome, None))
    && (forall k :: !(k in t.documents && t.documents[k].state.Indexed?) ==> (k in u.checks <==> k in t.checks))
    && (forall k :: k in t.checks && !(k in t.documents && t.documents[k].state.Indexed?) ==> u.checks[k] == t.checks[k])
  }

  lemma InvalidatedVoids(t: Tables)
    ensures Voided(t, Invalidated(t))
  {
  }

  lemma ChecksDoNotMatter(t: Tables, checks: map<Key, Check>)
    requires Publication.Healthy(t)
    ensures Publication.Healthy(t.(checks := checks))
  {
    hide IndexProperties.RowsPlaced, IndexProperties.ContentHeld, IndexProperties.Mirrors, IndexProperties.Versioned,
      IndexProperties.PayloadsCurrent, CitationProperties.Supported;
    var u := t.(checks := checks);
    var content :| IndexProperties.Agrees(t.documents, t, content);
    assert IndexProperties.Agrees(u.documents, u, content);
  }

  lemma StillHealthy(t: Tables, u: Tables)
    requires Publication.Healthy(t) && (u == t || Voided(t, u))
    ensures Publication.Healthy(u) && u.documents == t.documents
  {
    hide Publication.Healthy;
    ChecksDoNotMatter(t, u.checks);
  }

  /** What was verified by the first listing and still counts at the second was recent at any time between them. */
  lemma RecentBetween(t: Tables, rules: seq<Rule>, beganAt: Time, first: Time, now: Time, second: Time)
    requires AudienceRules.Valid(rules) && first <= now <= second
    requires AllVerified(t, rules, beganAt, first) && AllVerified(t, rules, beganAt, second)
    ensures forall k :: k in t.documents && t.documents[k].state.Indexed? && Resolve(rules, k).Some? ==> Publication.Recent(t, k, now)
  {
    hide AudienceRules.Valid, Resolve;
  }

  function LastChecked(t: Tables, k: Key): Time {
    if k in t.checks then t.checks[k].checkedAt else NEVER
  }

  /** The markers of all audiences that the rules name are in place. */
  predicate ScopesStand(rules: seq<Rule>, scopes: set<Audience>) {
    forall i :: 0 <= i < |rules| && rules[i].audience.Some? ==> rules[i].audience.value in scopes
  }

  /** Reaching this document ends a batch. */
  predicate EndsBatch(stops: set<Key>, answers: map<Key, CheckResult>, maxBytes: nat, k: Key) {
    k in stops || (k in answers && !CheckAcceptable(answers[k], maxBytes))
  }

  /** The answer to a check; whatever raises counts as unavailable. */
  function AnswerTo(answers: map<Key, CheckResult>, k: Key): CheckResult {
    if k in answers then answers[k] else Unavailable
  }

  /** Row and check of each of these documents are what its answer makes of them; those of all others are as they were. */
  ghost predicate CheckedOnly(t: Tables, u: Tables, done: set<Key>, answers: map<Key, CheckResult>, clock: Key -> Time) {
    && u.documents.Keys == t.documents.Keys
    && (forall k :: k in done ==> k in t.documents && SourceEffects.RowCheckedAs(t, u, k, AnswerTo(answers, k), clock(k)))
    && (forall k :: k in t.documents && k !in done ==> u.documents[k] == t.documents[k])
    && (forall k :: k !in done ==> (k in u.checks <==> k in t.checks))
    && (forall k :: k in t.checks && k !in done ==> u.checks[k] == t.checks[k])
  }

  lemma NoneChecked(t: Tables, answers: map<Key, CheckResult>, clock: Key -> Time)
    ensures CheckedOnly(t, t, {}, answers, clock)
  {
  }

  lemma StillListed(t: Tables, u: Tables, done: set<Key>, answers: map<Key, CheckResult>, clock: Key -> Time, k: Key)
    requires CheckedOnly(t, u, done, answers, clock) && k in t.documents && k !in done
    ensures k in u.documents && u.documents[k] == t.documents[k]
  {
  }

  lemma OneMoreChecked(t: Tables, u: Tables, v: Tables, done: set<Key>, answers: map<Key, CheckResult>, clock: Key -> Time, k: Key)
    requires CheckedOnly(t, u, done, answers, clock) && k in t.documents && k !in done && k in u.documents
    requires SourceEffects.CheckedAs(u, v, k, AnswerTo(answers, k), clock(k))
    ensures CheckedOnly(t, v, done + {k}, answers, clock)
  {
    hide SourceEffects.RowCheckedAs, SourceEffects.KeepsContent, SourceEffects.Gone, SourceEffects.Untouched, AnswerTo;
    assert k in u.documents && k in v.documents;
    RowOfItsOwn(t, u, v, v, k, AnswerTo(answers, k), clock(k));
    forall q | q in done ensures SourceEffects.RowCheckedAs(t, v, q, AnswerTo(answers, q), clock(q)) {
      RowOfItsOwn(t, t, u, v, q, AnswerTo(answers, q), clock(q));
    }
  }

  /** What a check makes of a row depends on that row and its check only. */
  lemma RowOfItsOwn(s: Tables, t: Tables, u: Tables, v: Tables, k: Key, r: CheckResult, now: Time)
    requires k in s.documents && k in t.documents && s.documents[k] == t.documents[k]
    requires (k in s.checks <==> k in t.checks) && (k in s.checks ==> s.checks[k] == t.checks[k])
    requires SourceEffects.RowCheckedAs(t, u, k, r, now)
    requires k in u.documents ==> k in v.documents && v.documents[k] == u.documents[k]
    requires k in u.checks ==> k in v.checks && v.checks[k] == u.checks[k]
    ensures SourceEffects.RowCheckedAs(s, v, k, r, now)
  {
  }

  /**
   What a batch chooses of the documents that await a check: none that would end it, the longest
   unchecked first, and as many as there is room for, unless one that ends it comes first.
   */
  ghost predicate BatchOf(t: Tables, waiting: set<Key>, done: set<Key>, room: nat, stops: set<Key>, answers: map<Key, CheckResult>, maxBytes: nat) {
    && done <= waiting && |done| <= room
    && (forall k :: k in done ==> !EndsBatch(stops, answers, maxBytes, k))
    && (forall k, q :: k in done && q in waiting - done ==> LastChecked(t, k) <= LastChecked(t, q))
    && (|done| < room ==> forall k :: k in waiting - done ==>
          exists q :: q in waiting - done && EndsBatch(stops, answers, maxBytes, q) && LastChecked(t, q) <= LastChecked(t, k))
  }

  /** A batch part of the way, with `left` still waiting. */
  ghost predicate BatchSoFar(t: Tables, left: set<Key>, done: set<Key>, ended: bool, stops: set<Key>, answers: map<Key, CheckResult>, maxBytes: nat) {
    && (forall k, q :: k in done && q in left ==> LastChecked(t, k) <= LastChecked(t, q))
    && (forall k :: k in done ==> !EndsBatch(stops, answers, maxBytes, k))
    && (ended ==> exists q :: q in left && EndsBatch(stops, answers, maxBytes, q) && forall k :: k in left ==> LastChecked(t, q) <= LastChecked(t, k))
  }

  lemma OldestEnds(t: Tables, left: set<Key>, done: set<Key>, stops: set<Key>, answers: map<Key, CheckResult>, maxBytes: nat, k: Key)
    requires BatchSoFar(t, left, done, false, stops, answers, maxBytes) && EndsBatch(stops, answers, maxBytes, k)
    requires k in left && forall q :: q in left ==> LastChecked(t, k) <= LastChecked(t, q)
    ensures BatchSoFar(t, left, done, true, stops, answers, maxBytes)
  {
    hide LastChecked, EndsBatch;
  }

  lemma Apart(t: Tables, waiting: set<Key>, left: set<Key>, done: set<Key>, k: Key)
    requires Splits(waiting, left, done) && k in left && AllIndexed(t, waiting)
    ensures k !in done && k in t.documents && t.documents[k].state.Indexed?
  {
  }

  lemma OldestChecked(t: Tables, left: set<Key>, done: set<Key>, stops: set<Key>, answers: map<Key, CheckResult>, maxBytes: nat, k: Key)
    requires BatchSoFar(t, left, done, false, stops, answers, maxBytes) && !EndsBatch(stops, answers, maxBytes, k)
    requires k in left && forall q :: q in left ==> LastChecked(t, k) <= LastChecked(t, q)
    ensures BatchSoFar(t, left - {k}, done + {k}, false, stops, answers, maxBytes)
  {
    hide LastChecked, EndsBatch;
  }

  predicate AllIndexed(t: Tables, keys: set<Key>) {
    forall k :: k in keys ==> k in t.documents && t.documents[k].state.Indexed?
  }

  ghost predicate Splits(waiting: set<Key>, left: set<Key>, done: set<Key>) {
    done !! left && done + left == waiting
  }

  lemma BatchMade(t: Tables, waiting: set<Key>, left: set<Key>, done: set<Key>, ended: bool, room: nat, stops: set<Key>,
                  answers: map<Key, CheckResult>, maxBytes: nat)
    requires BatchSoFar(t, left, done, ended, stops, answers, maxBytes)
    requires Splits(waiting, left, done) && |done| <= room && (left == {} || |done| == room || ended)
    ensures BatchOf(t, waiting, done, room, stops, answers, maxBytes)
  {
    hide LastChecked, EndsBatch;
  }

  /** The oldest document that waits goes over to those that are checked. */
  method Taken(t: Tables, waiting: set<Key>, left: set<Key>, done: set<Key>, stops: set<Key>, answers: map<Key, CheckResult>, maxBytes: nat, k: Key)
    returns (rest: set<Key>, more: set<Key>)
    requires BatchSoFar(t, left, done, false, stops, answers, maxBytes) && Splits(waiting, left, done)
    requires !EndsBatch(stops, answers, maxBytes, k) && k in left && forall q :: q in left ==> LastChecked(t, k) <= LastChecked(t, q)
    ensures BatchSoFar(t, rest, more, false, stops, answers, maxBytes) && Splits(waiting, rest, more)
    ensures more == done + {k} && |more| == |done| + 1 && |rest| < |left|
  {
    hide LastChecked, EndsBatch;
    OldestChecked(t, left, done, stops, answers, maxBytes, k);
    rest, more := left - {k}, done + {k};
  }

  class Recovery {
    const operator: Catalogue.Store
    const publisher: Publication.Publisher
    var gate: Option<string>
    var progress: Option<Progress>
    ghost var seen: set<Seen>

    ghost function View(policy: Policy, session: Option<Session>): State
      reads this, operator
    {
      State(operator.Value(), gate, progress, session, policy, seen)
    }

    constructor (operator: Catalogue.Store, publisher: Publication.Publisher, backup: string)
      ensures this.operator == operator && this.publisher == publisher && gate == Some(backup) && progress == None && seen == {}
      ensures forall policy :: Restored(View(policy, None))
    {
      this.operator, this.publisher := operator, publisher;
      gate, progress, seen := Some(backup), None, {};
    }

    /**
     A session is a run of the machine. The generation in progress goes on if it is of this policy and
     this backup. Otherwise every check is void before the new generation is recorded.
     */
    method Enter(policy: Policy, scopes: set<Audience>, now: Time) returns (ok: bool, ghost steps: seq<Step>)
      modifies this`progress, operator
      ensures ok <==> old(gate).Some? && AudienceRules.Valid(policy.rules) && ScopesStand(policy.rules, scopes)
      ensures Run(old(View(policy, None)), steps) == View(policy, if ok then Some(Ready(policy)) else None)
      ensures !ok ==> progress == old(progress) && operator.Value() == old(operator.Value())
      ensures ok ==>
        if old(progress).Some? && old(progress).value.policy == policy && old(progress).value.backup == gate.value
        then progress == old(progress) && operator.Value() == old(operator.Value())
        else progress == Some(Progress(gate.value, policy, now)) && Voided(old(operator.Value()), operator.Value())
    {
      hide AudienceRules.Valid, Invalidated, Voided;
      ghost var s := View(policy, None);
      steps := [];
      if gate.None? || !AudienceRules.Valid(policy.rules) || !ScopesStand(policy.rules, scopes) { return false, steps; }
      One(s, Open);
      steps := [Open];
      if !(progress.Some? && progress.value.policy == policy && progress.value.backup == gate.value) {
        InvalidatedChecksOnly(operator.Value());
        InvalidatedVoids(operator.Value());
        operator.checks := Invalidated(operator.Value()).checks;
        More(s, [Open], Invalidate);
        assert [Open] + [Invalidate] == [Open, Invalidate];
        progress := Some(Progress(gate.value, policy, now));
        More(s, [Open, Invalidate], Begin(now));
        assert [Open, Invalidate] + [Begin(now)] == [Open, Invalidate, Begin(now)];
        steps := [Open, Invalidate, Begin(now)];
      }
      return true, steps;
    }

    /**
     The documents that await a check, longest unchecked first, up to `maxFiles` of them, with one
     durable outcome each. Reaching a document in `stops` ends the batch: the time is up, the source is
     busy, or the retained original is damaged. So does an answer that the store refuses.
     */
    method Batch(policy: Policy, scopes: set<Audience>, maxFiles: int, seconds: int, answers: map<Key, CheckResult>, stops: set<Key>,
                 now: Time, clock: Key -> Time)
      returns (checked: Option<set<Key>>, ghost entered: Tables, ghost waiting: set<Key>, ghost steps: seq<Step>)
      modifies this, operator
      ensures gate == old(gate)
      ensures Run(old(View(policy, None)), steps) == View(policy, None)
      ensures checked.Some? <==>
        1 <= maxFiles <= 20 && 1 <= seconds <= 480 && gate.Some? && AudienceRules.Valid(policy.rules) && ScopesStand(policy.rules, scopes)
      ensures checked.None? ==> progress == old(progress) && operator.Value() == old(operator.Value())
      // The generation that the batch works in.
      ensures checked.Some? ==>
        if old(progress).Some? && old(progress).value.policy == policy && old(progress).value.backup == gate.value
        then progress == old(progress) && entered == old(operator.Value())
        else progress == Some(Progress(gate.value, policy, now)) && Voided(old(operator.Value()), entered)
      // Which documents are checked.
      ensures checked.Some? ==> forall k :: k in waiting <==> Unverified(entered, policy.rules, progress.value.beganAt, now, k)
      ensures checked.Some? ==> BatchOf(entered, waiting, checked.value, maxFiles, stops, answers, operator.maxFileBytes)
      // What becomes of them, and of the others.
      ensures checked.Some? ==> CheckedOnly(entered, operator.Value(), checked.value, answers, clock)
    {
      hide AudienceRules.Valid, ScopesStand, Unverified, AllVerified, AwaitingChecks, Voided, Perform, Run, BatchOf, CheckedOnly, EndsBatch;
      checked, entered, waiting, steps := None, operator.Value(), {}, [];
      if !(1 <= maxFiles <= 20 && 1 <= seconds <= 480) {
        EmptyRun(View(policy, None));
        return;
      }
      ghost var s := View(policy, None);
      var ok;
      ok, steps := Enter(policy, scopes, now);
      if !ok { return; }
      entered := operator.Value();
      AwaitingExactly(entered, policy.rules, progress.value.beganAt, now);
      var listed := Listing(policy, now);
      waiting := listed;
      var done;
      done, steps := CheckEach(policy, listed, maxFiles, answers, stops, clock, s, steps);
      More(s, steps, Leave);
      LeaveIsStep(View(policy, Some(Ready(policy))));
      steps := steps + [Leave];
      checked := Some(done);
    }

    method CheckEach(policy: Policy, waiting: set<Key>, maxFiles: nat, answers: map<Key, CheckResult>, stops: set<Key>,
                     clock: Key -> Time, ghost s: State, ghost before: seq<Step>)
      returns (done: set<Key>, ghost steps: seq<Step>)
      requires progress.Some? && Run(s, before) == View(policy, Some(Ready(policy)))
      requires AllIndexed(operator.Value(), waiting)
      modifies this`seen, operator
      ensures Run(s, steps) == View(policy, Some(Ready(policy)))
      ensures CheckedOnly(old(operator.Value()), operator.Value(), done, answers, clock)
      ensures BatchOf(old(operator.Value()), waiting, done, maxFiles, stops, answers, operator.maxFileBytes)
    {
      hide Catalogue.Store.Value, View, Perform, Run, LastChecked, CheckedOnly, EndsBatch, BatchOf;
      var t := operator.Value();
      var left := waiting;
      done, steps := {}, before;
      NoneChecked(t, answers, clock);
      assert BatchSoFar(t, left, done, false, stops, answers, operator.maxFileBytes) && Splits(waiting, left, done);
      hide BatchSoFar, Splits, AllIndexed;
      while left != {} && |done| < maxFiles
        invariant Run(s, steps) == View(policy, Some(Ready(policy)))
        invariant |done| <= maxFiles && Splits(waiting, left, done)
        invariant CheckedOnly(t, operator.Value(), done, answers, clock)
        invariant BatchSoFar(t, left, done, false, stops, answers, operator.maxFileBytes)
        decreases |left|
      {
        var k := Oldest(t, left);
        if EndsBatch(stops, answers, operator.maxFileBytes, k) {
          OldestEnds(t, left, done, stops, answers, operator.maxFileBytes, k);
          BatchMade(t, waiting, left, done, true, maxFiles, stops, answers, operator.maxFileBytes);
          return;
        }
        Apart(t, waiting, left, done, k);
        steps := CheckNext(policy, k, answers, stops, clock, t, done, s, steps);
        left, done := Taken(t, waiting, left, done, stops, answers, operator.maxFileBytes, k);
      }
      BatchMade(t, waiting, left, done, false, maxFiles, stops, answers, operator.maxFileBytes);
    }

    method CheckNext(policy: Policy, k: Key, answers: map<Key, CheckResult>, ghost stops: set<Key>, clock: Key -> Time,
                     ghost t: Tables, ghost done: set<Key>, ghost s: State, ghost before: seq<Step>)
      returns (ghost steps: seq<Step>)
      requires progress.Some? && Run(s, before) == View(policy, Some(Ready(policy)))
      requires CheckedOnly(t, operator.Value(), done, answers, clock) && k in t.documents && t.documents[k].state.Indexed? && k !in done
      requires !EndsBatch(stops, answers, operator.maxFileBytes, k)
      modifies this`seen, operator
      ensures Run(s, steps) == View(policy, Some(Ready(policy))) && CheckedOnly(t, operator.Value(), done + {k}, answers, clock)
    {
      hide Sighting, SourceChecked, Perform, Run, CheckedOnly, SourceEffects.CheckedAs;
      var result := AnswerTo(answers, k);
      StillListed(t, operator.Value(), done, answers, clock, k);
      CheckDocument(policy, k, result, clock(k));
      OneMoreChecked(t, old(operator.Value()), operator.Value(), done, answers, clock, k);
      More(s, before, CheckOne(k, result, clock(k), operator.maxFileBytes));
      steps := before + [CheckOne(k, result, clock(k), operator.maxFileBytes)];
    }

    /** A waiting document whose last check lies longest back. */
    method Oldest(t: Tables, left: set<Key>) returns (k: Key)
      requires left != {}
      ensures k in left && forall q :: q in left ==> LastChecked(t, k) <= LastChecked(t, q)
    {
      k :| k in left;
      var others := left - {k};
      while others != {}
        invariant k in left && others <= left
        invariant forall q :: q in left - others ==> LastChecked(t, k) <= LastChecked(t, q)
        decreases |others|
      {
        var q :| q in others;
        if LastChecked(t, q) < LastChecked(t, k) { k := q; }
        others := others - {q};
      }
    }

    /** One outcome, recorded in the store's own transaction. */
    method CheckDocument(policy: Policy, k: Key, result: CheckResult, now: Time)
      requires progress.Some? && k in operator.documents && operator.documents[k].state.Indexed?
      modifies this`seen, operator
      ensures View(policy, Some(Ready(policy)))
              == Perform(old(View(policy, Some(Ready(policy)))), CheckOne(k, result, now, operator.maxFileBytes))
      ensures if CheckAcceptable(result, operator.maxFileBytes)
              then SourceEffects.CheckedAs(old(operator.Value()), operator.Value(), k, result, now)
              else operator.Value() == old(operator.Value())
    {
      hide Sighting, SourceChecked, Perform, SourceEffects.CheckedAs;
      var row := operator.documents[k];
      ghost var before := View(policy, Some(Ready(policy)));
      var r := operator.RecordSourceCheck(k, row.fingerprint, row.sha, row.state, result, now);
      seen := seen + (if r.Ok? then Sighting(before.store, k, result, now, progress.value) else {});
      CheckIsStep(before, k, result, now, operator.maxFileBytes);
    }

    /**
     Nothing awaits a check, everything is published, the policy read again is the one the session began
     with, its scopes still stand, and again nothing awaits a check: then, and only then, the gate goes,
     whatever policy the host has been given meanwhile. `order` lists the operator's indexed sources.
     */
    method Finalize(policy: Policy, reread: Policy, atUnlink: Policy, order: seq<Key>, scopes: set<Audience>,
                    publishing: set<Audience>, scopesAgain: set<Audience>, now: Time, between: Time, later: Time)
      returns (readerOpen: bool, published: Option<Publication.Outcome>, ghost steps: seq<Step>)
      requires publisher.Valid() && Publication.Healthy(operator.Value())
      requires forall k :: k in order <==> k in operator.documents && operator.documents[k].state.Indexed?
      requires forall i, j :: 0 <= i < j < |order| ==> order[i] != order[j]
      modifies this, operator, publisher
      ensures Run(old(View(policy, None)), steps) == View(atUnlink, None)
      ensures gate == if readerOpen then None else old(gate)
      ensures published.Some? <==>
        && old(gate).Some? && AudienceRules.Valid(policy.rules) && ScopesStand(policy.rules, scopes)
        && progress.Some? && AllVerified(operator.Value(), policy.rules, progress.value.beganAt, now)
      ensures readerOpen <==>
        && published.Some? && published.value.Done? && !published.value.bounded
        && reread == policy && ScopesStand(policy.rules, scopesAgain)
        && AllVerified(operator.Value(), policy.rules, progress.value.beganAt, later)
      // The generation that is finalized.
      ensures published.Some? ==>
        if old(progress).Some? && old(progress).value.policy == policy && old(progress).value.backup == old(gate).value
        then progress == old(progress) && operator.Value() == old(operator.Value())
        else progress == Some(Progress(old(gate).value, policy, now)) && Voided(old(operator.Value()), operator.Value())
      // What a reader then finds: every source with an audience, in the operator's version, and nothing else.
      ensures readerOpen ==> Publication.Safe(operator.Value(), policy.rules, publisher.partitions)
      ensures readerOpen && now <= between <= later ==> forall k :: k in order && Resolve(policy.rules, k).Some? ==>
        var a := Resolve(policy.rules, k).value;
        a in publisher.partitions && Publication.Showing(operator.Value(), publisher.partitions[a], k)
    {
      hide AudienceRules.Valid, ScopesStand, AllVerified, Voided, Resolve, Run;
      hide Publication.Healthy, Publication.Safe, Publication.Showing, Publication.Recent;
      ghost var s := View(policy, None);
      readerOpen, published := false, None;
      var ok;
      ok, steps := Enter(policy, scopes, now);
      if !ok {
        steps := Aborted(s, steps, View(policy, None), atUnlink);
        return;
      }
      var waiting := Waiting(policy, now);
      if waiting {
        steps := Aborted(s, steps, View(policy, Some(Ready(policy))), atUnlink);
        return;
      }
      ghost var t := operator.Value();
      StillHealthy(old(operator.Value()), t);
      ghost var entered := View(policy, Some(Ready(policy)));
      var outcome := PublishAll(policy, order, publishing, between);
      assert View(policy, Some(Ready(policy))) == entered;
      published := Some(outcome);
      if !(outcome.Done? && !outcome.bounded) {
        steps := Aborted(s, steps, entered, atUnlink);
        return;
      }
      readerOpen, steps := Conclude(policy, reread, atUnlink, scopesAgain, later, s, steps);
      if readerOpen && now <= between <= later {
        RecentBetween(t, policy.rules, progress.value.beganAt, now, between, later);
      }
    }

    /** Everything is published from the store as it stands. */
    method PublishAll(policy: Policy, order: seq<Key>, scopes: set<Audience>, now: Time) returns (outcome: Publication.Outcome)
      requires AudienceRules.Valid(policy.rules) && publisher.Valid() && Publication.Healthy(operator.Value())
      requires forall k :: k in order <==> k in operator.documents && operator.documents[k].state.Indexed?
      requires forall i, j :: 0 <= i < j < |order| ==> order[i] != order[j]
      modifies publisher
      ensures outcome.Done? || outcome.ScopeRefused?
      ensures outcome.Done? ==> Publication.Safe(operator.Value(), policy.rules, publisher.partitions)
      ensures outcome.Done? && !outcome.bounded ==>
        forall k :: k in order && Resolve(policy.rules, k).Some? && Publication.Recent(operator.Value(), k, now) ==>
          var a := Resolve(policy.rules, k).value;
          a in publisher.partitions && Publication.Showing(operator.Value(), publisher.partitions[a], k)
    {
      hide AudienceRules.Valid, Resolve, Publication.Healthy, Publication.Safe, Publication.Recent, Publication.Showing, Publication.FirstPhase,
        Publication.TextDecided, Publication.RowKept, Publication.ToCopy, Publication.Shown, Publication.Eligible;
      ghost var reconciled;
      outcome, reconciled := publisher.Publish(operator.Value(), order, policy.rules, 1000, scopes, now);
    }

    /** The end of a finalize, from the re-read on. */
    method Conclude(policy: Policy, reread: Policy, atUnlink: Policy, scopesAgain: set<Audience>, later: Time,
                    ghost s: State, ghost before: seq<Step>)
      returns (readerOpen: bool, ghost steps: seq<Step>)
      requires AudienceRules.Valid(policy.rules) && progress.Some? && Run(s, before) == View(policy, Some(Ready(policy)))
      modifies this`gate
      ensures Run(s, steps) == View(atUnlink, None)
      ensures readerOpen <==>
        reread == policy && ScopesStand(policy.rules, scopesAgain)
        && AllVerified(operator.Value(), policy.rules, progress.value.beganAt, later)
      ensures gate == if readerOpen then None else old(gate)
    {
      hide AudienceRules.Valid, AllVerified, AwaitingChecks, ScopesStand, Run;
      readerOpen := false;
      More(s, before, SetPolicy(reread));
      More(s, before + [SetPolicy(reread)], Reread);
      steps := before + [SetPolicy(reread)] + [Reread];
      if reread != policy || !ScopesStand(policy.rules, scopesAgain) {
        steps := Aborted(s, steps, Run(s, steps), atUnlink);
        return;
      }
      AwaitingExactly(operator.Value(), policy.rules, progress.value.beganAt, later);
      var second := Listing(policy, later);
      More(s, steps, Relist(later));
      steps := steps + [Relist(later)];
      More(s, steps, SetPolicy(atUnlink));
      steps := steps + [SetPolicy(atUnlink)];
      if second == {} {
        More(s, steps, Unlink);
        steps := steps + [Unlink];
        gate := None;
        readerOpen := true;
      }
    }

    /** Some published document still awaits a check. */
    method Waiting(policy: Policy, now: Time) returns (waiting: bool)
      requires progress.Some? && AudienceRules.Valid(policy.rules)
      ensures waiting <==> !AllVerified(operator.Value(), policy.rules, progress.value.beganAt, now)
    {
      AwaitingExactly(operator.Value(), policy.rules, progress.value.beganAt, now);
      var left := Listing(policy, now);
      return left != {};
    }

    method Listing(policy: Policy, now: Time) returns (left: set<Key>)
      requires progress.Some? && AudienceRules.Valid(policy.rules)
      ensures left == AwaitingChecks(operator.Value(), policy.rules, progress.value.beganAt, now)
      ensures forall k :: k in left ==> k in operator.documents && operator.documents[k].state.Indexed?
    {
      left := AwaitingChecks(operator.Value(), policy.rules, progress.value.beganAt, now);
    }
  }

  lemma {:induction false} One(s: State, step: Step)
    ensures Run(s, [step]) == Perform(s, step)
  {
    assert [step][..0] == [];
  }

  lemma {:induction false} EmptyRun(s: State)
    ensures Run(s, []) == s
  {
  }

  lemma {:induction false} More(s: State, steps: seq<Step>, step: Step)
    ensures Run(s, steps + [step]) == Perform(Run(s, steps), step)
  {
    assert (steps + [step])[..|steps|] == steps;
  }

  /** A session ends, and the host may be given another policy. */
  lemma Aborted(s: State, before: seq<Step>, u: State, policy: Policy) returns (steps: seq<Step>)
    requires Run(s, before) == u
    ensures Run(s, steps) == u.(session := None, policy := policy)
  {
    hide Run;
    More(s, before, Leave);
    More(s, before + [Leave], SetPolicy(policy));
    steps := before + [Leave] + [SetPolicy(policy)];
  }

  lemma InvalidatedChecksOnly(t: Tables)
    ensures Invalidated(t) == t.(checks := Invalidated(t).checks)
  {
  }

  lemma LeaveIsStep(s: State)
    ensures Perform(s, Leave) == s.(session := None)
  {
  }

  /** The store's own recording of a check is the machine's step. */
  lemma CheckIsStep(s: State, k: Key, r: CheckResult, now: Time, maxBytes: nat)
    requires s.session.Some? && s.session.value.Ready? && s.progress.Some? && k in s.store.documents && s.store.documents[k].state.Indexed?
    ensures var d := s.store.documents[k];
      var op := K.CheckSource(k, d.fingerprint, d.sha, d.state, r, maxBytes);
      Perform(s, CheckOne(k, r, now, maxBytes))
      == s.(store := K.Perform(s.store, K.Step(op, now)),
            seen := s.seen + (if K.Checks(s.store, op) then Sighting(s.store, k, r, now, s.progress.value) else {}))
  {
    hide SourceChecked, Sighting;
  }
}
