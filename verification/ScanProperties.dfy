/**
 What a scan records over its whole life, whatever order pages, failures and finishing come in.
 */
module ScanProperties {
  import opened Wrappers
  import opened ScanJournal

  datatype Step = TakePage(page: Page) | Fail(dir: string, code: string, retryLimit: int) | Finish

  // What a run has recorded: one entry per page taken and per failure counted.
  datatype Mark =
    | Recorded(dir: string, offset: nat, count: nat, final: bool, limited: bool, folders: set<string>)
    | Failure(dir: string, gaveUp: bool)

  function Perform(s: Scan, step: Step): Scan {
    match step
    case TakePage(p) => if Takes(s, p) then Paged(s, p) else s
    case Fail(dir, code, retryLimit) =>
      if FailureAcceptable(s, dir, code, retryLimit)
      then s.(directories := s.directories[dir := Blamed(s.directories[dir], code, retryLimit)]) else s
    case Finish => if s.phase.Running? && Settled(s) then Finished(s) else s
  }

  function MarksOf(s: Scan, step: Step): seq<Mark> {
    match step
    case TakePage(p) =>
      if Takes(s, p) then [Recorded(p.dir, p.offset, Count(p), p.next.None?, Limits(s, p), Folders(p.items))] else []
    case Fail(dir, code, retryLimit) =>
      if FailureAcceptable(s, dir, code, retryLimit) then [Failure(dir, Blamed(s.directories[dir], code, retryLimit).state.Incomplete?)] else []
    case Finish => []
  }

  function Run(roots: seq<string>, steps: seq<Step>): Scan {
    if steps == [] then Opened(roots) else Perform(Run(roots, steps[..|steps| - 1]), steps[|steps| - 1])
  }

  function Log(roots: seq<string>, steps: seq<Step>): seq<Mark> {
    if steps == [] then []
    else
      var before := steps[..|steps| - 1];
      Log(roots, before) + MarksOf(Run(roots, before), steps[|steps| - 1])
  }

  // ---------------------------------------------------------------- reading a log

  /** Where the recorded pages of a folder end. */
  function PageEnd(log: seq<Mark>, d: string): nat {
    if log == [] then 0
    else
      var m := log[|log| - 1];
      PageEnd(log[..|log| - 1], d) + if m.Recorded? && m.dir == d then m.count else 0
  }

  predicate FailsAfter(log: seq<Mark>, d: string, i: nat) {
    exists j :: i < j < |log| && log[j].Failure? && log[j].dir == d
  }

  /** A limited page of the folder, with no failure of the folder after it. */
  predicate LimitedSinceFailure(log: seq<Mark>, d: string) {
    exists i: nat :: i < |log| && log[i].Recorded? && log[i].dir == d && log[i].limited && !FailsAfter(log, d, i)
  }

  predicate Ended(log: seq<Mark>, d: string) {
    exists i :: 0 <= i < |log| && log[i].Recorded? && log[i].dir == d && log[i].final
  }

  predicate GivenUp(log: seq<Mark>, d: string) {
    exists i :: 0 <= i < |log| && log[i].Failure? && log[i].dir == d && log[i].gaveUp
  }

  /** Each recorded page starts where the recorded pages of its folder ended: from 0 on, without gap or replay. */
  ghost predicate Contiguous(log: seq<Mark>) {
    forall i :: 0 <= i < |log| && log[i].Recorded? ==> log[i].offset == PageEnd(log[..i], log[i].dir)
  }

  predicate RowTold(row: Directory, log: seq<Mark>, d: string) {
    && row.offset == PageEnd(log, d)
    && (row.reason == Some(Unstable) <==> LimitedSinceFailure(log, d))
    && (row.state.Waiting? <==> !Ended(log, d) && !GivenUp(log, d))
    && (row.state.Complete? <==> Ended(log, d) && !LimitedSinceFailure(log, d))
  }

  ghost predicate RowsTold(directories: map<string, Directory>, log: seq<Mark>) {
    && (forall d :: d in directories ==> RowTold(directories[d], log, d))
    && (forall i :: 0 <= i < |log| ==> log[i].dir in directories)
  }

  predicate UnderSome(d: string, roots: seq<string>)
    requires forall r :: r in roots ==> WellFormed(r)
  {
    exists r :: r in roots && (d == r || Beneath(d, r))
  }

  ghost predicate Placed(directories: map<string, Directory>, roots: seq<string>)
    requires forall r :: r in roots ==> WellFormed(r)
  {
    && (forall d :: d in directories ==> WellFormed(d) && UnderSome(d, roots))
    && (forall r :: r in roots ==> r in directories)
  }

  ghost predicate FoldersListed(directories: map<string, Directory>, log: seq<Mark>) {
    forall i :: 0 <= i < |log| && log[i].Recorded? ==> log[i].folders <= directories.Keys
  }

  // ---------------------------------------------------------------- one more mark

  lemma {:induction false} OneMoreMark(log: seq<Mark>, m: Mark, d: string)
    ensures PageEnd(log + [m], d) == PageEnd(log, d) + if m.Recorded? && m.dir == d then m.count else 0
    ensures Ended(log + [m], d) <==> Ended(log, d) || (m.Recorded? && m.dir == d && m.final)
    ensures GivenUp(log + [m], d) <==> GivenUp(log, d) || (m.Failure? && m.dir == d && m.gaveUp)
    ensures LimitedSinceFailure(log + [m], d) <==>
      if m.dir == d && m.Failure? then false else LimitedSinceFailure(log, d) || (m.Recorded? && m.dir == d && m.limited)
  {
    var more, last := log + [m], |log|;
    assert more[..last] == log;
    assert more[last] == m;
    if Ended(log, d) {
      var i :| 0 <= i < |log| && log[i].Recorded? && log[i].dir == d && log[i].final;
      assert more[i] == log[i];
    }
    if GivenUp(log, d) {
      var i :| 0 <= i < |log| && log[i].Failure? && log[i].dir == d && log[i].gaveUp;
      assert more[i] == log[i];
    }
    LimitedOneMore(log, m, d);
  }

  lemma LimitedOneMore(log: seq<Mark>, m: Mark, d: string)
    ensures LimitedSinceFailure(log + [m], d) <==>
      if m.dir == d && m.Failure? then false else LimitedSinceFailure(log, d) || (m.Recorded? && m.dir == d && m.limited)
  {
    var more, last := log + [m], |log|;
    assert more[last] == m;
    assert !FailsAfter(more, d, last);
    forall i: nat | i < |log| ensures FailsAfter(more, d, i) <==> FailsAfter(log, d, i) || (m.Failure? && m.dir == d) {
      if FailsAfter(log, d, i) {
        var j :| i < j < |log| && log[j].Failure? && log[j].dir == d;
        assert more[j] == log[j];
      }
      if m.Failure? && m.dir == d { assert more[last].Failure?; }
    }
    if LimitedSinceFailure(log, d) && !(m.dir == d && m.Failure?) {
      var i: nat :| i < |log| && log[i].Recorded? && log[i].dir == d && log[i].limited && !FailsAfter(log, d, i);
      assert more[i] == log[i] && !FailsAfter(more, d, i);
    }
  }

  lemma OtherRowTold(row: Directory, log: seq<Mark>, m: Mark, d: string)
    requires RowTold(row, log, d) && m.dir != d
    ensures RowTold(row, log + [m], d)
  {
    hide PageEnd, Ended, GivenUp, LimitedSinceFailure;
    OneMoreMark(log, m, d);
  }

  lemma {:induction false} UntouchedTold(log: seq<Mark>, d: string)
    requires forall i :: 0 <= i < |log| ==> log[i].dir != d
    ensures RowTold(NewRow, log, d)
  {
    if log != [] {
      UntouchedTold(log[..|log| - 1], d);
      OtherRowTold(NewRow, log[..|log| - 1], log[|log| - 1], d);
      assert log[..|log| - 1] + [log[|log| - 1]] == log;
    }
  }

  lemma {:induction false} ContiguousOneMore(log: seq<Mark>, m: Mark)
    requires Contiguous(log) && (m.Recorded? ==> m.offset == PageEnd(log, m.dir))
    ensures Contiguous(log + [m])
  {
    var more := log + [m];
    forall i | 0 <= i < |more| && more[i].Recorded? ensures more[i].offset == PageEnd(more[..i], more[i].dir) {
      assert more[..i] == log[..i];
      assert log[..|log|] == log;
    }
  }

  // ---------------------------------------------------------------- a page, a failure

  lemma PageTold(s: Scan, p: Page, log: seq<Mark>)
    requires Takes(s, p) && RowsTold(s.directories, log)
    ensures RowsTold(Paged(s, p).directories, log + MarksOf(s, TakePage(p)))
  {
    hide RowTold, Limits, ItemsAcceptable, Folders, Sightings;
    var u, m := Paged(s, p).directories, MarksOf(s, TakePage(p))[0];
    forall d | d in u ensures RowTold(u[d], log + [m], d) {
      if d == p.dir {
        PagedRowTold(s.directories[d], p, Limits(s, p), m, log);
      } else {
        if d !in s.directories { UntouchedTold(log, d); }
        OtherRowTold(u[d], log, m, d);
      }
    }
  }

  lemma PagedRowTold(row: Directory, p: Page, limited: bool, m: Mark, log: seq<Mark>)
    requires PageAcceptable(p) && row.state.Waiting? && row.offset == p.offset && RowTold(row, log, p.dir)
    requires m.Recorded? && m.dir == p.dir && m.count == Count(p) && m.final == p.next.None? && m.limited == limited
    ensures RowTold(Advanced(row, p, limited), log + [m], p.dir)
  {
    hide PageEnd, Ended, GivenUp, LimitedSinceFailure, ItemsAcceptable;
    OneMoreMark(log, m, p.dir);
  }

  lemma FailureTold(s: Scan, dir: string, code: string, retryLimit: int, log: seq<Mark>)
    requires FailureAcceptable(s, dir, code, retryLimit) && RowsTold(s.directories, log)
    ensures RowsTold(Perform(s, Fail(dir, code, retryLimit)).directories, log + MarksOf(s, Fail(dir, code, retryLimit)))
  {
    hide PageEnd, Ended, GivenUp, LimitedSinceFailure;
    var u, m := Perform(s, Fail(dir, code, retryLimit)).directories, MarksOf(s, Fail(dir, code, retryLimit))[0];
    forall d | d in u ensures RowTold(u[d], log + [m], d) {
      assert RowTold(s.directories[d], log, d);
      OneMoreMark(log, m, d);
    }
  }

  // ---------------------------------------------------------------- folders and roots

  lemma NewFolderPlaced(k: string, folder: string, roots: seq<string>)
    requires forall r :: r in roots ==> WellFormed(r)
    requires WellFormed(k) && WellFormed(folder) && ChildOf(k, folder) && UnderSome(folder, roots)
    ensures UnderSome(k, roots)
  {
    var r :| r in roots && (folder == r || Beneath(folder, r));
  }

  lemma PagePlaced(s: Scan, p: Page, roots: seq<string>)
    requires forall r :: r in roots ==> WellFormed(r)
    requires Takes(s, p) && Placed(s.directories, roots)
    ensures Placed(Paged(s, p).directories, roots)
  {
    hide ChildOf, WellFormed, UnderSome, Limits;
    forall d | d in Folders(p.items) ensures WellFormed(d) && UnderSome(d, roots) {
      var item :| item in p.items && item.directory && item.entry.key == d;
      assert WellFormed(d) && ChildOf(d, p.dir);
      NewFolderPlaced(d, p.dir, roots);
    }
  }

  lemma NestedPrefixes(d: string, a: string, b: string)
    requires a + "\\" <= d && b + "\\" <= d && |a| <= |b|
    ensures a == b || a + "\\" <= b
  {
    assert a == d[..|a|] && b == d[..|b|];
    if |a| < |b| {
      assert a + "\\" == d[..|a| + 1] == b[..|a| + 1];
    }
  }

  /** Of two folders that hold a third, one is the other or holds it. */
  lemma Nested(d: string, r: string, q: string)
    requires WellFormed(d) && WellFormed(r) && WellFormed(q)
    requires (d == r || Beneath(d, r)) && (d == q || Beneath(d, q))
    ensures r == q || Beneath(r, q) || Beneath(q, r)
  {
    if d != r && d != q {
      if |Stem(r)| <= |Stem(q)| { NestedPrefixes(d, Stem(r), Stem(q)); } else { NestedPrefixes(d, Stem(q), Stem(r)); }
      if Stem(r) == Stem(q) { StemsDiffer(r, q); }
    }
  }

  /** Two roots that a scan accepts together never hold the same folder. */
  lemma OneRootOnly(d: string, r: string, q: string, roots: seq<string>)
    requires RootsAcceptable(roots) && r in roots && q in roots && WellFormed(d)
    requires (d == r || Beneath(d, r)) && (d == q || Beneath(d, q))
    ensures r == q
  {
    hide Beneath;
    Nested(d, r, q);
  }

  lemma StemsDiffer(r: string, q: string)
    requires WellFormed(r) && WellFormed(q) && Stem(r) == Stem(q)
    ensures r == q
  {
  }

  // ---------------------------------------------------------------- whole runs

  lemma OpenedTold(roots: seq<string>)
    requires RootsAcceptable(roots)
    ensures RowsTold(Opened(roots).directories, []) && Placed(Opened(roots).directories, roots)
  {
    forall d | d in roots ensures RowTold(NewRow, [], d) && UnderSome(d, roots) {
      UntouchedTold([], d);
    }
  }

  lemma StepTold(s: Scan, step: Step, log: seq<Mark>, roots: seq<string>)
    requires RootsAcceptable(roots) && RowsTold(s.directories, log) && Placed(s.directories, roots)
    requires Contiguous(log) && FoldersListed(s.directories, log)
    ensures var u, more := Perform(s, step).directories, log + MarksOf(s, step);
      RowsTold(u, more) && Placed(u, roots) && Contiguous(more) && FoldersListed(u, more) && s.directories.Keys <= u.Keys
  {
    hide RowTold, Contiguous, RootsAcceptable, UnderSome, Limits, ItemsAcceptable, Folders, Sightings, Beneath, WellFormed;
    var marks := MarksOf(s, step);
    if marks == [] {
      assert log + marks == log;
    } else {
      assert log + marks == log + [marks[0]];
      if marks[0].Recorded? {
        assert RowTold(s.directories[marks[0].dir], log, marks[0].dir);
        CursorTold(s.directories[marks[0].dir], log, marks[0].dir);
      }
      ContiguousOneMore(log, marks[0]);
    }
    match step
    case TakePage(p) => if Takes(s, p) { PageTold(s, p, log); PagePlaced(s, p, roots); }
    case Fail(dir, code, retryLimit) => if FailureAcceptable(s, dir, code, retryLimit) { FailureTold(s, dir, code, retryLimit, log); }
    case Finish =>
  }

  lemma {:induction false} CursorTold(row: Directory, log: seq<Mark>, d: string)
    requires RowTold(row, log, d)
    ensures row.offset == PageEnd(log, d)
  {
  }

  lemma {:induction false} RunTold(roots: seq<string>, steps: seq<Step>)
    requires RootsAcceptable(roots)
    ensures var s, log := Run(roots, steps), Log(roots, steps);
      RowsTold(s.directories, log) && Placed(s.directories, roots) && Contiguous(log) && FoldersListed(s.directories, log)
  {
    hide RowsTold, Placed, RootsAcceptable, Perform, MarksOf;
    if steps == [] {
      OpenedTold(roots);
    } else {
      var before := steps[..|steps| - 1];
      RunTold(roots, before);
      StepTold(Run(roots, before), steps[|steps| - 1], Log(roots, before), roots);
    }
  }

  /**
   In any scan the recorded pages of each folder follow one another from 0 on, each starting where
   the last one ended, the cursor stands at their end, and every folder seen in a recorded page has
   a row of its own.
   */
  lemma {:induction false} PagesContiguous(roots: seq<string>, steps: seq<Step>)
    requires RootsAcceptable(roots)
    ensures var s, log := Run(roots, steps), Log(roots, steps);
      && Contiguous(log) && FoldersListed(s.directories, log)
      && forall d :: d in s.directories ==> s.directories[d].offset == PageEnd(log, d)
  {
    hide Run, Log, Contiguous, FoldersListed, LimitedSinceFailure, Ended, GivenUp, Placed;
    RunTold(roots, steps);
    forall d | d in Run(roots, steps).directories ensures Run(roots, steps).directories[d].offset == PageEnd(Log(roots, steps), d) {
      assert RowTold(Run(roots, steps).directories[d], Log(roots, steps), d);
    }
  }

  /** Each folder of a scan lies under exactly one of its roots. */
  lemma {:induction false} ExactlyOneRoot(roots: seq<string>, steps: seq<Step>, d: string)
    requires RootsAcceptable(roots) && d in Run(roots, steps).directories
    ensures WellFormed(d)
    ensures exists r :: r in roots && (d == r || Beneath(d, r)) && forall q :: q in roots && (d == q || Beneath(d, q)) ==> q == r
  {
    hide Run, Log, RowsTold, Contiguous, FoldersListed, Beneath;
    RunTold(roots, steps);
    assert UnderSome(d, roots);
    var r :| r in roots && (d == r || Beneath(d, r));
    forall q | q in roots && (d == q || Beneath(d, q)) ensures q == r {
      OneRootOnly(d, q, r, roots);
    }
  }

  // ---------------------------------------------------------------- what a folder's outcome tells

  /**
   A folder is complete exactly when its final page was recorded and no limited page was recorded
   since its last failure; it still waits exactly when it neither ended nor was given up.
   */
  lemma {:induction false} FolderOutcome(roots: seq<string>, steps: seq<Step>, d: string)
    requires RootsAcceptable(roots) && d in Run(roots, steps).directories
    ensures var row, log := Run(roots, steps).directories[d], Log(roots, steps);
      && (row.state.Complete? <==> Ended(log, d) && !LimitedSinceFailure(log, d))
      && (row.state.Waiting? <==> !Ended(log, d) && !GivenUp(log, d))
  {
    hide Run, Log, LimitedSinceFailure, Ended, GivenUp, PageEnd, Placed, Contiguous, FoldersListed;
    RunTold(roots, steps);
    assert RowTold(Run(roots, steps).directories[d], Log(roots, steps), d);
  }

  predicate LimitedAt(log: seq<Mark>, d: string, i: nat) {
    i < |log| && log[i].Recorded? && log[i].dir == d && log[i].limited
  }

  /**
   A complete folder had no limited page at all if and only if no failure of the folder was recorded
   after a limited page of it: a failure overwrites the note that a page was limited.
   */
  lemma {:induction false} CompleteMeansUnlimited(roots: seq<string>, steps: seq<Step>, d: string)
    requires RootsAcceptable(roots) && d in Run(roots, steps).directories && Run(roots, steps).directories[d].state.Complete?
    ensures var log := Log(roots, steps);
      (forall i :: !LimitedAt(log, d, i)) <==> (forall i: nat :: FailsAfter(log, d, i) ==> !LimitedAt(log, d, i))
  {
    hide Run, Log, FailsAfter;
    FolderOutcome(roots, steps, d);
    var log := Log(roots, steps);
    forall i: nat | LimitedAt(log, d, i) ensures FailsAfter(log, d, i) {
    }
  }

  /** The other case exists: a limited page, a failure, then a clean last page leave the folder complete. */
  lemma LimitedPageForgotten()
    ensures var root := "c:\\";
      exists steps: seq<Step> ::
        && root in Run([root], steps).directories && Run([root], steps).directories[root].state.Complete?
        && exists i :: LimitedAt(Log([root], steps), root, i)
  {
    var root := "c:\\";
    var limited := TakePage(Page(root, 0, [], Some(1), true, Some(1)));
    var failure := Fail(root, "SOURCE_TIMEOUT", 3);
    var last := TakePage(Page(root, 1, [], None, false, None));
    hide Takes, Paged, Perform, MarksOf;
    var s0 := Opened([root]);
    EmptyPageTaken(s0, limited.page);
    var s1 := Perform(s0, limited);
    var s2 := s1.(directories := s1.directories[root := Blamed(s1.directories[root], "SOURCE_TIMEOUT", 3)]);
    FailureCounted(s1, root);
    EmptyPageTaken(s2, last.page);
    ThreeSteps([root], limited, failure, last);
    var log := Log([root], [limited, failure, last]);
    assert log[0] == MarksOf(s0, limited)[0];
    assert LimitedAt(log, root, 0);
  }

  lemma EmptyPageTaken(s: Scan, p: Page)
    requires p.items == [] && WellFormed(p.dir) && p.dir in s.directories && s.directories[p.dir].state.Waiting?
    requires s.directories[p.dir].offset == p.offset && PageAcceptable(p)
    ensures Perform(s, TakePage(p)) == s.(directories := s.directories[p.dir := Advanced(s.directories[p.dir], p, p.limited)])
    ensures MarksOf(s, TakePage(p)) == [Recorded(p.dir, p.offset, Count(p), p.next.None?, p.limited, {})]
  {
    assert Folders(p.items) == {};
    assert WithFolders(s.directories, {}) == s.directories;
    assert s.seen + map[] == s.seen;
  }

  lemma FailureCounted(s: Scan, dir: string)
    requires dir in s.directories && s.directories[dir].state.Waiting?
    ensures Perform(s, Fail(dir, "SOURCE_TIMEOUT", 3))
            == s.(directories := s.directories[dir := Blamed(s.directories[dir], "SOURCE_TIMEOUT", 3)])
  {
    assert "SOURCE_TIMEOUT" in CODES;
  }

  lemma {:induction false} ThreeSteps(roots: seq<string>, a: Step, b: Step, c: Step)
    ensures var s := Opened(roots);
      && Run(roots, [a, b, c]) == Perform(Perform(Perform(s, a), b), c)
      && Log(roots, [a, b, c]) == MarksOf(s, a) + MarksOf(Perform(s, a), b) + MarksOf(Perform(Perform(s, a), b), c)
  {
    hide Perform, MarksOf;
    var steps := [a, b, c];
    assert steps[..2] == [a, b] && [a, b][..1] == [a] && [a][..0] == [];
    assert Run(roots, [a]) == Perform(Opened(roots), a) && Log(roots, [a]) == MarksOf(Opened(roots), a);
    assert Run(roots, [a, b]) == Perform(Run(roots, [a]), b) && Log(roots, [a, b]) == Log(roots, [a]) + MarksOf(Run(roots, [a]), b);
  }

  // ---------------------------------------------------------------- finishing

  predicate AllComplete(s: Scan) {
    forall d :: d in s.directories ==> s.directories[d].state.Complete?
  }

  predicate PhaseTold(s: Scan) {
    s.phase.Running? || (Settled(s) && (s.phase.ObservedAll? <==> AllComplete(s)))
  }

  lemma SettledStays(s: Scan, step: Step)
    requires Settled(s) && !s.phase.Running?
    ensures Perform(s, step) == s
  {
  }

  lemma StepPhase(s: Scan, step: Step)
    requires PhaseTold(s)
    ensures PhaseTold(Perform(s, step))
  {
    hide PageAcceptable, Limits, Folders, Sightings;
    if !s.phase.Running? {
      SettledStays(s, step);
    }
  }

  /** A finished scan was fully observed exactly when every folder it found is complete; nothing reopens it. */
  lemma {:induction false} FinishTold(roots: seq<string>, steps: seq<Step>)
    ensures PhaseTold(Run(roots, steps))
  {
    hide PhaseTold, Perform;
    if steps == [] {
      assert PhaseTold(Opened(roots)) by { OpenedRuns(roots); }
    } else {
      FinishTold(roots, steps[..|steps| - 1]);
      StepPhase(Run(roots, steps[..|steps| - 1]), steps[|steps| - 1]);
    }
  }

  lemma OpenedRuns(roots: seq<string>)
    ensures PhaseTold(Opened(roots))
  {
  }

  /** Once finished, a scan never changes, whatever is sent to it. */
  lemma {:induction false} FinishedForever(roots: seq<string>, a: seq<Step>, b: seq<Step>)
    requires !Run(roots, a).phase.Running?
    ensures Run(roots, a + b) == Run(roots, a)
  {
    hide Perform;
    if b == [] {
      assert a + b == a;
    } else {
      var before := a + b[..|b| - 1];
      assert (a + b)[..|a + b| - 1] == before;
      FinishedForever(roots, a, b[..|b| - 1]);
      FinishTold(roots, a);
      SettledStays(Run(roots, a), b[|b| - 1]);
    }
  }
}
