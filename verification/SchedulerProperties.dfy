/**
 The whole life of the scheduler: sweep after sweep, each possibly cut short by a crash at any
 point, under any clock, including one that goes back.
 */
module SchedulerProperties {
  import opened Wrappers
  import opened GenerationScheduler

  // One sweep that got the lock; `survives` events of it happen before the process ends.
  datatype Sweep = Sweep(jobs: seq<Job>, today: Day, steps: nat, inTime: nat, runs: map<Job, StepRun>, survives: nat)

  function Whole(events: seq<Event>, w: Sweep, maxDaily: nat): seq<Event> {
    var s := ReadState(Disk(events), w.today);
    SweepEvents(s, Rotated(w.jobs, s.cursor), w.steps, w.inTime, w.runs, maxDaily)
  }

  function Cut(events: seq<Event>, n: nat): seq<Event> {
    if n < |events| then events[..n] else events
  }

  function Life(sweeps: seq<Sweep>, maxDaily: nat): seq<Event> {
    if sweeps == [] then []
    else
      var before := Life(sweeps[..|sweeps| - 1], maxDaily);
      var w := sweeps[|sweeps| - 1];
      before + Cut(Whole(before, w, maxDaily), w.survives)
  }

  // ---------------------------------------------------------------- the budget

  predicate Later(before: Option<State>, after: State) {
    before.None? || (before.value.day == after.day && before.value.reservations <= after.reservations) || before.value.day < after.day
  }

  /** One more event after a history: a cursor write keeps the budget, a reservation takes one, a call follows its reservation. */
  predicate Follows(events: seq<Event>, e: Event, maxDaily: nat) {
    match e
    case Cursor(s) => Later(Disk(events), s) && s.reservations <= maxDaily
    case Reserve(s) =>
      && Disk(events).Some? && Disk(events).value.day == s.day && Disk(events).value.reservations < s.reservations <= maxDaily
    case Dispatch(_, day) => events != [] && events[|events| - 1].Reserve? && events[|events| - 1].state.day == day
  }

  ghost predicate Lawful(events: seq<Event>, maxDaily: nat) {
    forall i :: 0 <= i < |events| ==> Follows(events[..i], events[i], maxDaily)
  }

  function DispatchedOn(events: seq<Event>, day: Day): nat {
    if events == [] then 0
    else
      var e := events[|events| - 1];
      DispatchedOn(events[..|events| - 1], day) + if e.Dispatch? && e.day == day then 1 else 0
  }

  function ReservedOn(events: seq<Event>, day: Day): nat {
    if events == [] then 0
    else
      var e := events[|events| - 1];
      ReservedOn(events[..|events| - 1], day) + if e.Reserve? && e.state.day == day then 1 else 0
  }

  /** What the file accounts for on a day: its count today, up to the maximum on days gone by. */
  function Accounted(disk: Option<State>, day: Day, maxDaily: nat): nat {
    if disk.None? || day > disk.value.day then 0 else if day == disk.value.day then disk.value.reservations else maxDaily
  }

  lemma {:induction false} LawfulBudget(events: seq<Event>, day: Day, maxDaily: nat)
    requires Lawful(events, maxDaily)
    ensures DispatchedOn(events, day) <= ReservedOn(events, day) <= Accounted(Disk(events), day, maxDaily)
    ensures Disk(events).Some? ==> Disk(events).value.reservations <= maxDaily
    ensures events != [] && events[|events| - 1].Reserve? && events[|events| - 1].state.day == day ==>
              DispatchedOn(events, day) < ReservedOn(events, day)
  {
    if events != [] {
      var before, e := events[..|events| - 1], events[|events| - 1];
      assert Follows(before, e, maxDaily);
      assert Lawful(before, maxDaily) by {
        forall i | 0 <= i < |before| ensures Follows(before[..i], before[i], maxDaily) {
          assert before[..i] == events[..i];
        }
      }
      LawfulBudget(before, day, maxDaily);
    }
  }

  lemma LawfulJoin(a: seq<Event>, b: seq<Event>, maxDaily: nat)
    requires Lawful(a, maxDaily) && forall i :: 0 <= i < |b| ==> Follows(a + b[..i], b[i], maxDaily)
    ensures Lawful(a + b, maxDaily)
  {
    hide Follows;
    forall i | 0 <= i < |a + b| ensures Follows((a + b)[..i], (a + b)[i], maxDaily) {
      if i < |a| {
        assert (a + b)[..i] == a[..i];
      } else {
        assert (a + b)[..i] == a + b[..i - |a|];
      }
    }
  }

  lemma LawfulCut(a: seq<Event>, b: seq<Event>, n: nat, maxDaily: nat)
    requires Lawful(a + b, maxDaily) && n <= |b|
    ensures Lawful(a + b[..n], maxDaily)
  {
    hide Follows;
    forall i | 0 <= i < |a + b[..n]| ensures Follows((a + b[..n])[..i], (a + b[..n])[i], maxDaily) {
      assert (a + b[..n])[..i] == (a + b)[..i];
      assert (a + b)[i] == (a + b[..n])[i];
    }
  }

  /** What the state in memory must be for the next write to be lawful. */
  predicate InMemory(events: seq<Event>, s: State, maxDaily: nat) {
    Later(Disk(events), s) && s.reservations <= maxDaily
  }

  lemma {:induction false} CallsLawful(events: seq<Event>, s: State, job: Job, writes: seq<Write>, maxDaily: nat)
    requires Lawful(events, maxDaily) && s.reservations <= maxDaily
    requires Disk(events).Some? && Disk(events).value.day == s.day && Disk(events).value.reservations <= s.reservations
    ensures Lawful(events + CallEvents(s, job, writes, maxDaily), maxDaily)
    ensures InMemory(events + CallEvents(s, job, writes, maxDaily), AfterCalls(s, writes, maxDaily), maxDaily)
    decreases |writes|
  {
    hide Lawful, Disk;
    if writes == [] || s.reservations >= maxDaily {
      assert events + [] == events;
    } else {
      var reserved := s.(reservations := s.reservations + 1);
      var rest := CallEvents(reserved, job, writes[1..], maxDaily);
      var call := CallOf(reserved, job, writes[0]);
      CallLawful(events, reserved, job, writes[0], maxDaily);
      assert events + (call + rest) == (events + call) + rest;
      CallsLawful(events + call, reserved, job, writes[1..], maxDaily);
    }
  }

  lemma {:induction false} CallLawful(events: seq<Event>, s: State, job: Job, w: Write, maxDaily: nat)
    requires Lawful(events, maxDaily) && Follows(events, Reserve(s), maxDaily)
    ensures Lawful(events + CallOf(s, job, w), maxDaily)
    ensures Disk(events + CallOf(s, job, w)) == if w.Lost? then Disk(events) else Some(s)
  {
    hide Lawful, Disk;
    var call := CallOf(s, job, w);
    forall i | 0 <= i < |call| ensures Follows(events + call[..i], call[i], maxDaily) {
      if i == 0 {
        assert call[..0] == [] && events + [] == events;
      } else {
        assert call[..1] == [Reserve(s)];
        assert (events + call[..1])[|events|] == Reserve(s);
      }
    }
    LawfulJoin(events, call, maxDaily);
    ReservedOnDisk(events, s, job, w);
  }

  lemma {:induction false} SweepLawful(events: seq<Event>, s: State, left: seq<Job>, steps: nat, inTime: nat,
                                       runs: map<Job, StepRun>, maxDaily: nat)
    requires Lawful(events, maxDaily) && InMemory(events, s, maxDaily)
    ensures Lawful(events + SweepEvents(s, left, steps, inTime, runs, maxDaily), maxDaily)
    decreases |left|
  {
    hide Lawful, CallEvents, AfterCalls;
    if left == [] || steps == 0 || inTime == 0 || s.reservations >= maxDaily {
      assert events + [] == events;
    } else {
      var run := if left[0] in runs then runs[left[0]] else StepRun([], Raised);
      var moved := s.(cursor := Some(left[0]));
      var calls := CallEvents(moved, left[0], run.reservationWrites, maxDaily);
      var rest := SweepEvents(AfterVisit(s, left[0], run, maxDaily), left[1..], steps - 1, inTime - 1, runs, maxDaily);
      CursorLawful(events, moved, maxDaily);
      CallsLawful(events + [Cursor(moved)], moved, left[0], run.reservationWrites, maxDaily);
      SweepLawful(events + [Cursor(moved)] + calls, AfterVisit(s, left[0], run, maxDaily), left[1..], steps - 1, inTime - 1, runs, maxDaily);
      assert events + (([Cursor(moved)] + calls) + rest) == (events + [Cursor(moved)] + calls) + rest;
    }
  }

  lemma {:induction false} CursorLawful(events: seq<Event>, s: State, maxDaily: nat)
    requires Lawful(events, maxDaily) && InMemory(events, s, maxDaily)
    ensures Lawful(events + [Cursor(s)], maxDaily) && Disk(events + [Cursor(s)]) == Some(s)
  {
    assert [Cursor(s)][..0] == [] && events + [] == events;
    LawfulJoin(events, [Cursor(s)], maxDaily);
  }

  lemma {:induction false} ReadInMemory(events: seq<Event>, today: Day, maxDaily: nat)
    requires Lawful(events, maxDaily)
    ensures InMemory(events, ReadState(Disk(events), today), maxDaily)
  {
    LawfulBudget(events, today, maxDaily);
  }

  lemma {:induction false} LifeLawful(sweeps: seq<Sweep>, maxDaily: nat)
    ensures Lawful(Life(sweeps, maxDaily), maxDaily)
  {
    hide Lawful, SweepEvents, InMemory;
    if sweeps == [] {
      assert Lawful([], maxDaily) by { EmptyLawful(maxDaily); }
    } else {
      var before := Life(sweeps[..|sweeps| - 1], maxDaily);
      var w := sweeps[|sweeps| - 1];
      LifeLawful(sweeps[..|sweeps| - 1], maxDaily);
      var s := ReadState(Disk(before), w.today);
      ReadInMemory(before, w.today, maxDaily);
      SweepLawful(before, s, Rotated(w.jobs, s.cursor), w.steps, w.inTime, w.runs, maxDaily);
      LawfulCut(before, Whole(before, w, maxDaily), |Cut(Whole(before, w, maxDaily), w.survives)|, maxDaily);
    }
  }

  lemma EmptyLawful(maxDaily: nat)
    ensures Lawful([], maxDaily)
  {
  }

  /**
   Across any sweeps, crashes at any event, and clocks in any order: the calls attributed to a
   recorded day never exceed the reservations written for that day, and those never exceed the
   maximum, nor, on the day of the file, the count the file holds.
   */
  lemma {:induction false} DailyBudget(sweeps: seq<Sweep>, maxDaily: nat, day: Day)
    ensures var events := Life(sweeps, maxDaily);
      && DispatchedOn(events, day) <= ReservedOn(events, day) <= maxDaily
      && (Disk(events).Some? && Disk(events).value.day == day ==> ReservedOn(events, day) <= Disk(events).value.reservations <= maxDaily)
  {
    LifeLawful(sweeps, maxDaily);
    LawfulBudget(Life(sweeps, maxDaily), day, maxDaily);
  }

  // ---------------------------------------------------------------- fairness

  /** The jobs the durable cursor was moved to, in order. */
  function Visits(events: seq<Event>): seq<Job> {
    if events == [] then []
    else
      var e := events[|events| - 1];
      Visits(events[..|events| - 1]) + if e.Cursor? && e.state.cursor.Some? then [e.state.cursor.value] else []
  }

  /** The job after the cursor, in the sorted list taken as a ring. */
  function NextJob(jobs: seq<Job>, cursor: Option<Job>): Job
    requires jobs != []
  {
    if Passed(jobs, cursor) == |jobs| then jobs[0] else jobs[Passed(jobs, cursor)]
  }

  ghost predicate Cyclic(visits: seq<Job>, jobs: seq<Job>)
    requires jobs != []
  {
    && (visits != [] ==> visits[0] == jobs[0])
    && forall i, j :: 0 <= i && j == i + 1 && j < |visits| ==> visits[j] == NextJob(jobs, Some(visits[i]))
  }

  function CursorOf(disk: Option<State>): Option<Job> {
    if disk.Some? then disk.value.cursor else None
  }

  /** The cursor on disk is the last job visited. */
  lemma {:induction false} CursorIsLastVisit(events: seq<Event>)
    requires forall i :: 0 <= i < |events| ==> KeepsCursor(events[..i], events[i])
    ensures CursorOf(Disk(events)) == if Visits(events) == [] then None else Some(Visits(events)[|Visits(events)| - 1])
  {
    if events != [] {
      var before, e := events[..|events| - 1], events[|events| - 1];
      forall i | 0 <= i < |before| ensures KeepsCursor(before[..i], before[i]) {
        assert before[..i] == events[..i];
      }
      CursorIsLastVisit(before);
      assert KeepsCursor(before, e);
    }
  }

  predicate KeepsCursor(events: seq<Event>, e: Event) {
    match e
    case Cursor(s) => s.cursor.Some?
    case Reserve(s) => s.cursor == CursorOf(Disk(events))
    case Dispatch(_, _) => true
  }

  /** Each move of the cursor goes to the next job of the ring; nothing else moves it. */
  predicate MovesOn(events: seq<Event>, e: Event, jobs: seq<Job>)
    requires jobs != []
  {
    match e
    case Cursor(s) => s.cursor == Some(NextJob(jobs, CursorOf(Disk(events))))
    case Reserve(s) => s.cursor == CursorOf(Disk(events))
    case Dispatch(_, _) => true
  }

  ghost predicate RoundRobin(events: seq<Event>, jobs: seq<Job>)
    requires jobs != []
  {
    forall i :: 0 <= i < |events| ==> MovesOn(events[..i], events[i], jobs)
  }

  lemma {:induction false} RoundRobinCyclic(events: seq<Event>, jobs: seq<Job>)
    requires jobs != [] && RoundRobin(events, jobs)
    ensures Cyclic(Visits(events), jobs)
  {
    if events != [] {
      var before, e := events[..|events| - 1], events[|events| - 1];
      forall i | 0 <= i < |events| ensures KeepsCursor(events[..i], events[i]) {
        assert MovesOn(events[..i], events[i], jobs);
      }
      forall i | 0 <= i < |before| ensures MovesOn(before[..i], before[i], jobs) && KeepsCursor(before[..i], before[i]) {
        assert before[..i] == events[..i];
        assert MovesOn(events[..i], events[i], jobs) && KeepsCursor(events[..i], events[i]);
      }
      RoundRobinCyclic(before, jobs);
      CursorIsLastVisit(before);
      assert MovesOn(before, e, jobs);
      assert Passed(jobs, None) == 0;
    }
  }

  lemma RoundRobinJoin(a: seq<Event>, b: seq<Event>, jobs: seq<Job>)
    requires jobs != [] && RoundRobin(a, jobs) && forall i :: 0 <= i < |b| ==> MovesOn(a + b[..i], b[i], jobs)
    ensures RoundRobin(a + b, jobs)
  {
    hide MovesOn;
    forall i | 0 <= i < |a + b| ensures MovesOn((a + b)[..i], (a + b)[i], jobs) {
      if i < |a| {
        assert (a + b)[..i] == a[..i];
      } else {
        assert (a + b)[..i] == a + b[..i - |a|];
      }
    }
  }

  lemma RoundRobinCut(a: seq<Event>, b: seq<Event>, n: nat, jobs: seq<Job>)
    requires jobs != [] && RoundRobin(a + b, jobs) && n <= |b|
    ensures RoundRobin(a + b[..n], jobs)
  {
    hide MovesOn;
    forall i | 0 <= i < |a + b[..n]| ensures MovesOn((a + b[..n])[..i], (a + b[..n])[i], jobs) {
      assert (a + b[..n])[..i] == (a + b)[..i];
      assert (a + b)[i] == (a + b[..n])[i];
    }
  }

  lemma {:induction false} CallsKeepCursor(events: seq<Event>, s: State, job: Job, writes: seq<Write>, maxDaily: nat,
                                           jobs: seq<Job>)
    requires jobs != [] && RoundRobin(events, jobs) && CursorOf(Disk(events)) == s.cursor && Disk(events).Some?
    ensures var all := events + CallEvents(s, job, writes, maxDaily);
      RoundRobin(all, jobs) && CursorOf(Disk(all)) == s.cursor && Disk(all).Some?
    ensures AfterCalls(s, writes, maxDaily).cursor == s.cursor
    decreases |writes|
  {
    hide RoundRobin, Disk;
    if writes == [] || s.reservations >= maxDaily {
      assert events + [] == events;
    } else {
      var reserved := s.(reservations := s.reservations + 1);
      var rest := CallEvents(reserved, job, writes[1..], maxDaily);
      var call := CallOf(reserved, job, writes[0]);
      CallKeepsCursor(events, reserved, job, writes[0], jobs);
      assert events + (call + rest) == (events + call) + rest;
      CallsKeepCursor(events + call, reserved, job, writes[1..], maxDaily, jobs);
    }
  }

  lemma {:induction false} CallKeepsCursor(events: seq<Event>, s: State, job: Job, w: Write, jobs: seq<Job>)
    requires jobs != [] && RoundRobin(events, jobs) && CursorOf(Disk(events)) == s.cursor
    ensures RoundRobin(events + CallOf(s, job, w), jobs)
    ensures Disk(events + CallOf(s, job, w)) == if w.Lost? then Disk(events) else Some(s)
  {
    var call := CallOf(s, job, w);
    assert call[..0] == [] && events + [] == events;
    RoundRobinJoin(events, call, jobs);
    ReservedOnDisk(events, s, job, w);
  }

  /** In the rotated list every job is followed by its successor on the ring. */
  lemma RotatedFollows(jobs: seq<Job>, cursor: Option<Job>)
    requires jobs != [] && Sorted(jobs)
    ensures var r := Rotated(jobs, cursor);
      |r| == |jobs| && r[0] == NextJob(jobs, cursor)
      && forall i, j :: 0 <= i && j == i + 1 && j < |r| ==> r[j] == NextJob(jobs, Some(r[i]))
  {
    var r, n, k := Rotated(jobs, cursor), |jobs|, Passed(jobs, cursor);
    assert forall i :: 0 <= i < n ==> r[i] == jobs[if i < n - k then k + i else i + k - n];
    forall i, j | 0 <= i && j == i + 1 && j < |r| ensures r[j] == NextJob(jobs, Some(r[i])) {
      var at := if i < n - k then k + i else i + k - n;
      PassedAt(jobs, at);
    }
  }

  lemma {:induction false} PassedAt(jobs: seq<Job>, i: nat)
    requires Sorted(jobs) && i < |jobs|
    ensures Passed(jobs, Some(jobs[i])) == i + 1
  {
    PassedSplits(jobs, Some(jobs[i]));
    var n := Passed(jobs, Some(jobs[i]));
    assert i < n;
    assert i + 1 < |jobs| ==> jobs[i] < jobs[i + 1];
  }

  lemma {:induction false} SweepRoundRobin(events: seq<Event>, s: State, left: seq<Job>, steps: nat, inTime: nat,
                                           runs: map<Job, StepRun>,
                                           maxDaily: nat, jobs: seq<Job>)
    requires jobs != [] && RoundRobin(events, jobs) && CursorOf(Disk(events)) == s.cursor
    requires left != [] ==> left[0] == NextJob(jobs, s.cursor)
    requires forall i, j :: 0 <= i && j == i + 1 && j < |left| ==> left[j] == NextJob(jobs, Some(left[i]))
    ensures RoundRobin(events + SweepEvents(s, left, steps, inTime, runs, maxDaily), jobs)
    decreases |left|
  {
    hide RoundRobin, CallEvents, AfterCalls, Passed;
    if left == [] || steps == 0 || inTime == 0 || s.reservations >= maxDaily {
      assert events + [] == events;
    } else {
      var run := if left[0] in runs then runs[left[0]] else StepRun([], Raised);
      var moved := s.(cursor := Some(left[0]));
      var calls := CallEvents(moved, left[0], run.reservationWrites, maxDaily);
      var rest := SweepEvents(AfterVisit(s, left[0], run, maxDaily), left[1..], steps - 1, inTime - 1, runs, maxDaily);
      CursorMoves(events, moved, jobs);
      CallsKeepCursor(events + [Cursor(moved)], moved, left[0], run.reservationWrites, maxDaily, jobs);
      SweepRoundRobin(events + [Cursor(moved)] + calls, AfterVisit(s, left[0], run, maxDaily), left[1..], steps - 1, inTime - 1, runs, maxDaily, jobs);
      assert events + (([Cursor(moved)] + calls) + rest) == (events + [Cursor(moved)] + calls) + rest;
    }
  }

  lemma {:induction false} CursorMoves(events: seq<Event>, s: State, jobs: seq<Job>)
    requires jobs != [] && RoundRobin(events, jobs) && s.cursor == Some(NextJob(jobs, CursorOf(Disk(events))))
    ensures RoundRobin(events + [Cursor(s)], jobs) && Disk(events + [Cursor(s)]) == Some(s)
  {
    assert [Cursor(s)][..0] == [] && events + [] == events;
    RoundRobinJoin(events, [Cursor(s)], jobs);
  }

  lemma {:induction false} LifeRoundRobin(sweeps: seq<Sweep>, maxDaily: nat, jobs: seq<Job>)
    requires jobs != [] && Sorted(jobs) && forall w :: w in sweeps ==> w.jobs == jobs
    ensures RoundRobin(Life(sweeps, maxDaily), jobs)
  {
    hide RoundRobin, SweepEvents, Rotated, Passed;
    if sweeps == [] {
      assert RoundRobin([], jobs) by { EmptyRoundRobin(jobs); }
    } else {
      var before := Life(sweeps[..|sweeps| - 1], maxDaily);
      var w := sweeps[|sweeps| - 1];
      LifeRoundRobin(sweeps[..|sweeps| - 1], maxDaily, jobs);
      var s := ReadState(Disk(before), w.today);
      RotatedFollows(jobs, s.cursor);
      SweepRoundRobin(before, s, Rotated(w.jobs, s.cursor), w.steps, w.inTime, w.runs, maxDaily, jobs);
      RoundRobinCut(before, Whole(before, w, maxDaily), |Cut(Whole(before, w, maxDaily), w.survives)|, jobs);
    }
  }

  lemma EmptyRoundRobin(jobs: seq<Job>)
    requires jobs != []
    ensures RoundRobin([], jobs)
  {
  }

  /** A cyclic list of visits is the sorted job list repeated. */
  lemma {:induction false} CyclicIsRepetition(visits: seq<Job>, jobs: seq<Job>, i: nat)
    requires jobs != [] && Sorted(jobs) && Cyclic(visits, jobs) && i < |visits|
    ensures visits[i] == jobs[i % |jobs|]
  {
    hide Passed, NextJob, Sorted;
    if i == 0 {
      assert 0 % |jobs| == 0;
    } else {
      CyclicIsRepetition(visits, jobs, i - 1);
      NextOnRing(i, |jobs|);
      assert visits[i] == NextJob(jobs, Some(visits[i - 1]));
      NextAt(jobs, (i - 1) % |jobs|);
    }
  }

  lemma NextAt(jobs: seq<Job>, r: nat)
    requires Sorted(jobs) && r < |jobs|
    ensures NextJob(jobs, Some(jobs[r])) == jobs[if r + 1 == |jobs| then 0 else r + 1]
  {
    PassedAt(jobs, r);
  }

  lemma NextOnRing(i: nat, n: nat)
    requires i > 0 && n > 0
    ensures i % n == if (i - 1) % n + 1 == n then 0 else (i - 1) % n + 1
  {
    var r, q := (i - 1) % n, (i - 1) / n;
    assert i == q * n + r + 1;
    if r + 1 < n {
      UniqueRemainder(i, q, r + 1, n);
    } else {
      assert i == (q + 1) * n + 0;
      UniqueRemainder(i, q + 1, 0, n);
    }
  }

  lemma Multiple(d: int, n: int)
    requires n > 0
    ensures (d >= 1 ==> d * n >= n) && (d <= -1 ==> d * n <= -n)
  {
    if d >= 1 { assert d * n == (d - 1) * n + n; }
    if d <= -1 { assert d * n == (d + 1) * n - n; }
  }

  lemma UniqueRemainder(i: int, q: int, r: int, n: int)
    requires n > 0 && 0 <= r < n && i == q * n + r
    ensures i % n == r
  {
    var d := i / n - q;
    assert i == (i / n) * n + i % n;
    assert d * n == r - i % n;
    Multiple(d, n);
  }

  /**
   With a fixed set of granted jobs, over any number of sweeps and crashes and whatever each step
   does, the cursor goes round the sorted list of jobs again and again.
   */
  lemma {:induction false} VisitsGoRound(sweeps: seq<Sweep>, maxDaily: nat, jobs: seq<Job>, i: nat)
    requires jobs != [] && Sorted(jobs) && (forall w :: w in sweeps ==> w.jobs == jobs)
    requires i < |Visits(Life(sweeps, maxDaily))|
    ensures Visits(Life(sweeps, maxDaily))[i] == jobs[i % |jobs|]
  {
    hide Life, Visits;
    LifeRoundRobin(sweeps, maxDaily, jobs);
    RoundRobinCyclic(Life(sweeps, maxDaily), jobs);
    CyclicIsRepetition(Visits(Life(sweeps, maxDaily)), jobs, i);
  }

  /** Between two visits to a job, every other job is visited exactly once: any |jobs| visits in a row are all the jobs. */
  lemma {:induction false} EveryJobInTurn(sweeps: seq<Sweep>, maxDaily: nat, jobs: seq<Job>, from: nat, job: Job)
    requires jobs != [] && Sorted(jobs) && (forall w :: w in sweeps ==> w.jobs == jobs) && job in jobs
    requires from + |jobs| <= |Visits(Life(sweeps, maxDaily))|
    ensures exists i :: from <= i < from + |jobs| && Visits(Life(sweeps, maxDaily))[i] == job
                        && forall j :: from <= j < from + |jobs| && Visits(Life(sweeps, maxDaily))[j] == job ==> j == i
  {
    hide Life, Visits, Passed;
    var visits, n := Visits(Life(sweeps, maxDaily)), |jobs|;
    var at :| 0 <= at < n && jobs[at] == job;
    var start := from % n;
    var i := if at >= start then from + at - start else from + at - start + n;
    assert i + from % n == if at >= from % n then from + at else from + at + n;
    assert i % n == at by { OnRing(from, i, at, n); }
    VisitsGoRound(sweeps, maxDaily, jobs, i);
    forall j | from <= j < from + n && visits[j] == job ensures j == i {
      VisitsGoRound(sweeps, maxDaily, jobs, j);
      assert j % n == at;
      SameRemainder(i, j, n);
    }
  }

  /**
   After any life so far: a sweep with jobs, steps and time moves the cursor to the next job of the ring,
   unless the budget of the day is used up; on a day later than the recorded one it never is.
   */
  lemma {:induction false} SweepMovesOn(sweeps: seq<Sweep>, w: Sweep, maxDaily: nat)
    requires w.jobs != [] && Sorted(w.jobs) && w.steps > 0 && w.inTime > 0 && w.survives > 0 && maxDaily > 0
    ensures var before := Life(sweeps, maxDaily); var disk := Disk(before);
      var anew := disk.None? || disk.value.day < w.today;
      anew || disk.value.reservations < maxDaily ==>
        before + [Cursor(State(Some(NextJob(w.jobs, CursorOf(disk))), if anew then w.today else disk.value.day,
                               if anew then 0 else disk.value.reservations))]
        <= Life(sweeps + [w], maxDaily)
  {
    hide Passed, NextJob, CallEvents, AfterCalls, Disk;
    var before := Life(sweeps, maxDaily);
    assert (sweeps + [w])[..|sweeps|] == sweeps;
    var s := ReadState(Disk(before), w.today);
    RotatedFollows(w.jobs, s.cursor);
    if s.reservations < maxDaily {
      var whole := Whole(before, w, maxDaily);
      OneVisit(s, Rotated(w.jobs, s.cursor), w.steps, w.inTime, w.runs, maxDaily);
      assert [Cursor(s.(cursor := Some(NextJob(w.jobs, s.cursor))))] <= whole;
      assert [Cursor(s.(cursor := Some(NextJob(w.jobs, s.cursor))))] <= Cut(whole, w.survives);
    }
  }

  lemma OnRing(from: nat, i: nat, at: nat, n: nat)
    requires n > 0 && at < n && i + from % n == if at >= from % n then from + at else from + at + n
    ensures i % n == at
  {
    var q := from / n;
    assert from == q * n + from % n;
    if at >= from % n { UniqueRemainder(i, q, at, n); } else { assert i == (q + 1) * n + at; UniqueRemainder(i, q + 1, at, n); }
  }

  lemma SameRemainder(i: int, j: int, n: int)
    requires n > 0 && i % n == j % n && -n < i - j < n
    ensures i == j
  {
    var d := i / n - j / n;
    assert i == (i / n) * n + i % n && j == (j / n) * n + j % n;
    assert i - j == d * n;
    Multiple(d, n);
  }
}
