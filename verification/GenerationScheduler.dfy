/**
 The sequential sweep over granted jobs, with a durable cursor and a durable daily budget.
 A job id is 64 hexadecimal digits; it stands here for the number they spell, which orders
 ids as the program does. The state file is replaced as a whole or not at all.
 */
module GenerationScheduler {
  import opened Wrappers

  type Job = nat
  type Day = nat

  datatype State = State(cursor: Option<Job>, day: Day, reservations: nat)

  // What a sweep does that outlives it: two kinds of state writes, and the calls themselves.
  datatype Event = Cursor(state: State) | Reserve(state: State) | Dispatch(job: Job, day: Day)

  // The write that reserves a call: it is done, it leaves the file as it was, or it replaces the file
  // and fails afterwards.
  datatype Write = Written | Lost | Unconfirmed

  // One run of a job's step: the calls to the model it tries, each with how the write that
  // reserves it goes, and how the step ends.
  datatype Ending = Completed | BlockedEnd | Deferred | Other | Raised
  datatype StepRun = StepRun(reservationWrites: seq<Write>, ending: Ending)

  datatype Status = Idle | BudgetLimited | Processed
  datatype Report = Report(status: Status, visited: nat, dispatched: nat, complete: nat, blocked: nat, denied: nat, deferred: nat)

  predicate Sorted(jobs: seq<Job>) {
    forall i, j :: 0 <= i < j < |jobs| ==> jobs[i] < jobs[j]
  }

  /** The file as the last write left it. */
  function Disk(events: seq<Event>): Option<State> {
    if events == [] then None
    else
      match events[|events| - 1]
      case Cursor(s) => Some(s)
      case Reserve(s) => Some(s)
      case Dispatch(_, _) => Disk(events[..|events| - 1])
  }

  /** A clock that went back must not reset a consumed budget. */
  function ReadState(disk: Option<State>, today: Day): State {
    if disk.None? then State(None, today, 0)
    else if today > disk.value.day then disk.value.(day := today, reservations := 0)
    else disk.value
  }

  /** How many jobs come at or before the cursor. */
  function Passed(jobs: seq<Job>, cursor: Option<Job>): (n: nat)
    ensures n <= |jobs|
  {
    if jobs == [] || cursor.None? then 0
    else if jobs[|jobs| - 1] <= cursor.value then |jobs|
    else Passed(jobs[..|jobs| - 1], cursor)
  }

  function Rotated(jobs: seq<Job>, cursor: Option<Job>): seq<Job> {
    jobs[Passed(jobs, cursor)..] + jobs[..Passed(jobs, cursor)]
  }

  // ---------------------------------------------------------------- what one visit, and one sweep, leave behind

  /** The call is made only when its reservation was written without fail. */
  function CallOf(reserved: State, job: Job, w: Write): seq<Event> {
    match w
    case Written => [Reserve(reserved), Dispatch(job, reserved.day)]
    case Lost => []
    case Unconfirmed => [Reserve(reserved)]
  }

  function CallEvents(s: State, job: Job, writes: seq<Write>, maxDaily: nat): seq<Event>
    decreases |writes|
  {
    if writes == [] || s.reservations >= maxDaily then []
    else
      var reserved := s.(reservations := s.reservations + 1);
      CallOf(reserved, job, writes[0]) + CallEvents(reserved, job, writes[1..], maxDaily)
  }

  function AfterCalls(s: State, writes: seq<Write>, maxDaily: nat): State
    decreases |writes|
  {
    if writes == [] || s.reservations >= maxDaily then s
    else AfterCalls(s.(reservations := s.reservations + 1), writes[1..], maxDaily)
  }

  function VisitEvents(s: State, job: Job, run: StepRun, maxDaily: nat): seq<Event> {
    [Cursor(s.(cursor := Some(job)))] + CallEvents(s.(cursor := Some(job)), job, run.reservationWrites, maxDaily)
  }

  function AfterVisit(s: State, job: Job, run: StepRun, maxDaily: nat): State {
    AfterCalls(s.(cursor := Some(job)), run.reservationWrites, maxDaily)
  }

  /** The events of a sweep over `left`, with room for `steps` more visits; the clock allows the first `inTime` of them. */
  function SweepEvents(s: State, left: seq<Job>, steps: nat, inTime: nat, runs: map<Job, StepRun>,
                       maxDaily: nat): seq<Event>
    decreases |left|
  {
    if left == [] || steps == 0 || inTime == 0 || s.reservations >= maxDaily then []
    else
      var run := if left[0] in runs then runs[left[0]] else StepRun([], Raised);
      VisitEvents(s, left[0], run, maxDaily)
      + SweepEvents(AfterVisit(s, left[0], run, maxDaily), left[1..], steps - 1, inTime - 1, runs, maxDaily)
  }

  function Dispatches(events: seq<Event>): nat {
    if events == [] then 0 else (if events[0].Dispatch? then 1 else 0) + Dispatches(events[1..])
  }

  lemma {:induction false} DispatchesJoin(a: seq<Event>, b: seq<Event>)
    ensures Dispatches(a + b) == Dispatches(a) + Dispatches(b)
  {
    if a == [] {
      assert a + b == b;
    } else {
      DispatchesJoin(a[1..], b);
      assert (a + b)[1..] == a[1..] + b;
    }
  }

  // ---------------------------------------------------------------- what a sweep comes to

  /** The rotation: the jobs after the cursor, in order, then those up to it. */
  ghost predicate StartsAfter(rotated: seq<Job>, jobs: seq<Job>, cursor: Option<Job>) {
    exists n :: 0 <= n <= |jobs| && rotated == jobs[n..] + jobs[..n]
                && forall i :: 0 <= i < |jobs| ==> (i < n <==> cursor.Some? && jobs[i] <= cursor.value)
  }

  function RunOf(runs: map<Job, StepRun>, job: Job): StepRun {
    if job in runs then runs[job] else StepRun([], Raised)
  }

  /** How many calls the steps of these jobs try. */
  function Tried(jobs: seq<Job>, runs: map<Job, StepRun>): nat {
    if jobs == [] then 0 else Tried(jobs[..|jobs| - 1], runs) + |RunOf(runs, jobs[|jobs| - 1]).reservationWrites|
  }

  /** How many of them end this way. */
  function Ended(jobs: seq<Job>, runs: map<Job, StepRun>, ending: Ending): nat {
    if jobs == [] then 0
    else Ended(jobs[..|jobs| - 1], runs, ending) + if RunOf(runs, jobs[|jobs| - 1]).ending == ending then 1 else 0
  }

  /** How many of these writes went through, and so were followed by their call. */
  function Confirmed(writes: seq<Write>): nat {
    if writes == [] then 0 else Confirmed(writes[..|writes| - 1]) + if writes[|writes| - 1].Written? then 1 else 0
  }

  function ConfirmedOf(jobs: seq<Job>, runs: map<Job, StepRun>): nat {
    if jobs == [] then 0 else ConfirmedOf(jobs[..|jobs| - 1], runs) + Confirmed(RunOf(runs, jobs[|jobs| - 1]).reservationWrites)
  }

  /** What holds a sweep after `v` visits: its steps or its time are over, or the day's budget is used up. */
  predicate Held(v: nat, rotated: seq<Job>, reserved: nat, maxSteps: int, maxDaily: int, inTime: nat, runs: map<Job, StepRun>)
    requires v <= |rotated|
  {
    v >= maxSteps || v >= inTime || reserved + Tried(rotated[..v], runs) >= maxDaily
  }

  /** A sweep goes on until the jobs are through or something holds it, and its report counts how its visits ended. */
  ghost predicate Reported(r: Report, rotated: seq<Job>, reserved: nat, maxSteps: int, maxDaily: int, inTime: nat, runs: map<Job, StepRun>) {
    && r.visited <= |rotated|
    && (r.visited < |rotated| ==> Held(r.visited, rotated, reserved, maxSteps, maxDaily, inTime, runs))
    && (forall v: nat :: v < r.visited ==> !Held(v, rotated, reserved, maxSteps, maxDaily, inTime, runs))
    && r.status == (if r.visited < |rotated| then BudgetLimited else if rotated == [] then Idle else Processed)
    && r.complete == Ended(rotated[..r.visited], runs, Completed) && r.blocked == Ended(rotated[..r.visited], runs, BlockedEnd)
    && r.deferred == Ended(rotated[..r.visited], runs, Deferred) && r.denied == Ended(rotated[..r.visited], runs, Raised)
    && ((forall j :: j in runs ==> |runs[j].reservationWrites| <= 1) ==> r.dispatched == ConfirmedOf(rotated[..r.visited], runs))
  }

  // ---------------------------------------------------------------- the sweep the program runs

  class Scheduler {
    var disk: Option<State>
    ghost var events: seq<Event>

    constructor ()
      ensures disk == None && events == [] && Valid()
    {
      disk, events := None, [];
    }

    ghost predicate Valid()
      reads this
    {
      disk == Disk(events)
    }

    /** Jobs after the cursor first, then the rest, by two passes over the list. */
    static method Rotate(jobs: seq<Job>, cursor: Option<Job>) returns (rotated: seq<Job>)
      requires Sorted(jobs)
      ensures rotated == Rotated(jobs, cursor)
      ensures StartsAfter(rotated, jobs, cursor)
    {
      if cursor.None? {
        assert jobs[0..] + jobs[..0] == jobs;
        return jobs;
      }
      var after, rest: seq<Job> := [], [];
      ghost var n := Passed(jobs, cursor);
      PassedSplits(jobs, cursor);
      for i := 0 to |jobs|
        invariant after == if i <= n then [] else jobs[n..i]
        invariant rest == if i <= n then jobs[..i] else jobs[..n]
      {
        if jobs[i] > cursor.value { after := after + [jobs[i]]; } else { rest := rest + [jobs[i]]; }
      }
      assert jobs[n..|jobs|] == jobs[n..];
      return after + rest;
    }

    method WriteCursor(s: State)
      requires Valid()
      modifies this
      ensures Valid() && events == old(events) + [Cursor(s)]
    {
      disk := Some(s);
      events := events + [Cursor(s)];
    }

    /** The step's own calls to the model, through the adapter that reserves first. */
    method RunStep(s: State, job: Job, run: StepRun, maxDaily: nat) returns (after: State, dispatched: nat,
                   exhausted: bool)
      requires Valid()
      modifies this
      ensures Valid() && events == old(events) + CallEvents(s, job, run.reservationWrites, maxDaily)
      ensures after == AfterCalls(s, run.reservationWrites, maxDaily)
      ensures |run.reservationWrites| <= 1 && s.reservations < maxDaily ==> !exhausted
      ensures dispatched == Dispatches(CallEvents(s, job, run.reservationWrites, maxDaily))
      // No call over the budget; each reserved call takes one of it and is made if its reservation was written.
      ensures s.reservations >= maxDaily ==> events == old(events) && after == s && dispatched == 0
      ensures s.reservations < maxDaily ==>
        var n := if |run.reservationWrites| <= maxDaily - s.reservations then |run.reservationWrites| else maxDaily - s.reservations;
        after == s.(reservations := s.reservations + n) && dispatched == Confirmed(run.reservationWrites[..n])
        && (exhausted <==> n < |run.reservationWrites|)
      ensures |run.reservationWrites| == 1 && s.reservations < maxDaily ==>
        var reserved := s.(reservations := s.reservations + 1);
        events == old(events) + match run.reservationWrites[0] {
                                  case Written => [Reserve(reserved), Dispatch(job, s.day)]
                                  case Unconfirmed => [Reserve(reserved)]
                                  case Lost => []
                                }
    {
      hide CallEvents, Dispatches, Disk;
      after, dispatched, exhausted := s, 0, false;
      var i := 0;
      assert run.reservationWrites[0..] == run.reservationWrites;
      while i < |run.reservationWrites|
        invariant 0 <= i <= |run.reservationWrites| && Valid()
        invariant dispatched + Dispatches(CallEvents(after, job, run.reservationWrites[i..], maxDaily))
                  == Dispatches(CallEvents(s, job, run.reservationWrites, maxDaily))
        invariant events + CallEvents(after, job, run.reservationWrites[i..], maxDaily)
                  == old(events) + CallEvents(s, job, run.reservationWrites, maxDaily)
        invariant AfterCalls(after, run.reservationWrites[i..], maxDaily) == AfterCalls(s, run.reservationWrites, maxDaily)
        invariant after == s.(reservations := s.reservations + i) && (i > 0 ==> s.reservations + i <= maxDaily)
        invariant dispatched == Confirmed(run.reservationWrites[..i])
        invariant i == 0 ==> events == old(events)
        invariant i == 1 ==> events == old(events) + CallOf(s.(reservations := s.reservations + 1), job, run.reservationWrites[0])
      {
        ghost var left := run.reservationWrites[i..];
        assert left[0] == run.reservationWrites[i] && left[1..] == run.reservationWrites[i + 1..];
        ReservedCall(after, job, left, maxDaily);
        if after.reservations >= maxDaily {
          exhausted := true;
          NoDispatches();
          return;
        }
        assert run.reservationWrites[..i + 1][..i] == run.reservationWrites[..i];
        var reserved := after.(reservations := after.reservations + 1);
        ReservedOnDisk(events, reserved, job, run.reservationWrites[i]);
        if !run.reservationWrites[i].Lost? { disk := Some(reserved); }
        events := events + CallOf(reserved, job, run.reservationWrites[i]);
        if run.reservationWrites[i].Written? { dispatched := dispatched + 1; }
        after := reserved;
        i := i + 1;
      }
      NothingCalled(after, job, run.reservationWrites[i..], maxDaily);
      assert run.reservationWrites[..i] == run.reservationWrites;
    }

    /** The cursor moves on before the step runs, so that no job can hold up the others. */
    method Visit(s: State, job: Job, run: StepRun, maxDaily: nat) returns (after: State, dispatched: nat,
                 exhausted: bool)
      requires Valid()
      modifies this
      ensures Valid() && events == old(events) + VisitEvents(s, job, run, maxDaily) && after == AfterVisit(s, job, run, maxDaily)
      ensures dispatched == Dispatches(VisitEvents(s, job, run, maxDaily))
      ensures |run.reservationWrites| <= 1 && s.reservations < maxDaily ==> !exhausted
      ensures old(events) + [Cursor(s.(cursor := Some(job)))] <= events
      ensures s.reservations < maxDaily ==>
        var n := if |run.reservationWrites| <= maxDaily - s.reservations then |run.reservationWrites| else maxDaily - s.reservations;
        after == s.(cursor := Some(job), reservations := s.reservations + n) && dispatched == Confirmed(run.reservationWrites[..n])
      ensures |run.reservationWrites| <= 1 && s.reservations < maxDaily ==> dispatched == Confirmed(run.reservationWrites)
    {
      hide CallEvents, AfterCalls, Dispatches, Disk, Confirmed;
      assert run.reservationWrites[..|run.reservationWrites|] == run.reservationWrites;
      var moved := s.(cursor := Some(job));
      WriteCursor(moved);
      after, dispatched, exhausted := RunStep(moved, job, run, maxDaily);
      CursorIsNoDispatch(moved, CallEvents(moved, job, run.reservationWrites, maxDaily));
    }

    /**
     One sweep. A crash during it leaves the file as some prefix of its events does. `refused` tells
     that the adapter turned a call away for want of budget, which steps with one call never meet.
     */
    method Sweep(jobs: seq<Job>, maxSteps: int, maxDaily: int, seconds: int, today: Day, inTime: nat, runs: map<Job, StepRun>)
      returns (report: Option<Report>, refused: bool, ghost rotated: seq<Job>)
      requires Sorted(jobs) && Valid()
      modifies this
      ensures Valid()
      ensures report.Some? <==> 1 <= maxSteps <= 32 && 1 <= maxDaily <= 256 && 1 <= seconds <= 900
      ensures report.None? ==> events == old(events)
      ensures SingleCalls(runs) ==> !refused
      ensures report.Some? ==>
        var s := ReadState(old(disk), today);
        events == old(events) + SweepEvents(s, Rotated(jobs, s.cursor), maxSteps, inTime, runs, maxDaily)
      ensures report.Some? ==> Consistent(report.value) && report.value.visited <= maxSteps
      ensures report.Some? ==>
        var s := ReadState(old(disk), today);
        report.value.dispatched == Dispatches(SweepEvents(s, Rotated(jobs, s.cursor), maxSteps, inTime, runs, maxDaily))
      // Which jobs are visited, and how the report counts them. Only a later day gives a fresh budget.
      ensures report.Some? ==>
        && StartsAfter(rotated, jobs, if old(disk).Some? then old(disk).value.cursor else None)
        && Reported(report.value, rotated, if old(disk).None? || old(disk).value.day < today then 0 else old(disk).value.reservations,
                    maxSteps, maxDaily, inTime, runs)
      ensures report.Some? && jobs != [] && inTime > 0 ==>
        old(disk).None? || old(disk).value.day < today || old(disk).value.reservations < maxDaily ==> report.value.visited > 0
      ensures report.Some? && report.value.visited > 0 ==>
        var cursor := Cursor(State(Some(rotated[0]),
                                   if old(disk).None? || old(disk).value.day < today then today else old(disk).value.day,
                                   if old(disk).None? || old(disk).value.day < today then 0 else old(disk).value.reservations));
        old(events) + [cursor] <= events
    {
      hide SweepEvents, VisitEvents, AfterVisit, Rotated, Disk, Dispatches, Held, Reported, SweptSoFar, OnCourse, SingleCalls, StartsAfter,
        Confirmed, ConfirmedOf, Counted;
      refused, rotated := false, [];
      if !(1 <= maxSteps <= 32 && 1 <= maxDaily <= 256 && 1 <= seconds <= 900) { return None, false, []; }
      var s := ReadState(disk, today);
      ghost var start := s;
      var turn := Rotate(jobs, s.cursor);
      rotated := turn;
      var r := Report(Idle, 0, 0, 0, 0, 0, 0);
      ghost var all := SweepEvents(s, turn, maxSteps, inTime, runs, maxDaily);
      var i := 0;
      AtStart(r, s, turn, maxSteps, maxDaily, inTime, runs, events);
      while i < |turn|
        invariant 0 <= i <= |turn| && Valid() && r.visited == i && i <= maxSteps && i <= inTime && Consistent(r)
        invariant SingleCalls(runs) ==> !refused
        invariant OnCourse(events, r.dispatched, s, turn[i..], maxSteps - i, inTime - i, runs, maxDaily, old(events) + all, Dispatches(all))
        invariant SweptSoFar(r, s, turn, i, start.reservations, maxSteps, maxDaily, inTime, runs)
        invariant if i == 0 then s == start && events == old(events) else old(events) + [Cursor(start.(cursor := Some(turn[0])))] <= events
      {
        HeldExactly(r, s, turn, i, start.reservations, maxSteps, maxDaily, inTime, runs);
        if r.visited >= maxSteps || i >= inTime || s.reservations >= maxDaily {
          CourseHeld(events, r.dispatched, s, turn[i..], maxSteps - i, inTime - i, runs, maxDaily, old(events) + all, Dispatches(all));
          SweepHeld(r, s, turn, i, start.reservations, maxSteps, maxDaily, inTime, runs);
          return Some(r.(status := BudgetLimited)), refused, rotated;
        }
        var run := RunOf(runs, turn[i]);
        ghost var was, here := s, events;
        var dispatched, exhausted;
        s, dispatched, exhausted := Visit(s, turn[i], run, maxDaily);
        refused := refused || exhausted;
        SingleCall(runs, turn[i]);
        CourseGoesOn(here, r.dispatched, was, turn, i, maxSteps - i, inTime - i, runs, maxDaily, old(events) + all, Dispatches(all));
        OneMoreSwept(r, was, s, turn, i, start.reservations, maxSteps, maxDaily, inTime, runs, dispatched);
        OneMoreCounted(r, dispatched, run.ending);
        r := Counted(r, dispatched, run.ending);
        i := i + 1;
      }
      CourseDone(events, r.dispatched, s, turn[i..], maxSteps - i, inTime - i, runs, maxDaily, old(events) + all, Dispatches(all));
      SweepThrough(r, s, turn, start.reservations, maxSteps, maxDaily, inTime, runs);
      return Some(r), refused, rotated;
    }
  }

  /** No step makes more than one call to the model. */
  ghost predicate SingleCalls(runs: map<Job, StepRun>) {
    forall j :: j in runs ==> |runs[j].reservationWrites| <= 1
  }

  lemma SingleCall(runs: map<Job, StepRun>, job: Job)
    ensures SingleCalls(runs) ==> |RunOf(runs, job).reservationWrites| <= 1
  {
  }

  lemma OneMoreCounted(r: Report, dispatched: nat, ending: Ending)
    ensures var c := Counted(r, dispatched, ending);
      c.visited == r.visited + 1 && c.dispatched == r.dispatched + dispatched && (Consistent(r) ==> Consistent(c))
  {
  }

  /** The events so far are those of the whole sweep but for the ones to come, and the calls are counted. */
  ghost predicate OnCourse(events: seq<Event>, dispatched: nat, s: State, left: seq<Job>, steps: nat, inTime: nat, runs: map<Job, StepRun>,
                           maxDaily: nat, whole: seq<Event>, calls: nat)
  {
    && events + SweepEvents(s, left, steps, inTime, runs, maxDaily) == whole
    && dispatched + Dispatches(SweepEvents(s, left, steps, inTime, runs, maxDaily)) == calls
  }

  lemma CourseHeld(events: seq<Event>, dispatched: nat, s: State, left: seq<Job>, steps: nat, inTime: nat, runs: map<Job, StepRun>,
                   maxDaily: nat, whole: seq<Event>, calls: nat)
    requires OnCourse(events, dispatched, s, left, steps, inTime, runs, maxDaily, whole, calls) && left != []
    requires steps == 0 || inTime == 0 || s.reservations >= maxDaily
    ensures events == whole && dispatched == calls
  {
    hide Dispatches;
    NoDispatches();
    OneVisit(s, left, steps, inTime, runs, maxDaily);
  }

  lemma CourseDone(events: seq<Event>, dispatched: nat, s: State, left: seq<Job>, steps: nat, inTime: nat, runs: map<Job, StepRun>,
                   maxDaily: nat, whole: seq<Event>, calls: nat)
    requires OnCourse(events, dispatched, s, left, steps, inTime, runs, maxDaily, whole, calls) && left == []
    ensures events == whole && dispatched == calls
  {
    hide Dispatches;
    NoDispatches();
    NoVisit(s, left, steps, inTime, runs, maxDaily);
  }

  lemma CourseGoesOn(events: seq<Event>, dispatched: nat, s: State, turn: seq<Job>, i: nat, steps: nat, inTime: nat, runs: map<Job, StepRun>,
                     maxDaily: nat, whole: seq<Event>, calls: nat)
    requires i < |turn| && OnCourse(events, dispatched, s, turn[i..], steps, inTime, runs, maxDaily, whole, calls)
    requires steps > 0 && inTime > 0 && s.reservations < maxDaily
    ensures var visit := VisitEvents(s, turn[i], RunOf(runs, turn[i]), maxDaily);
      OnCourse(events + visit, dispatched + Dispatches(visit), AfterVisit(s, turn[i], RunOf(runs, turn[i]), maxDaily), turn[i + 1..], steps - 1,
               inTime - 1, runs, maxDaily, whole, calls)
  {
    hide SweepEvents, VisitEvents, AfterVisit, Dispatches;
    var left, run := turn[i..], RunOf(runs, turn[i]);
    assert left[0] == turn[i] && left[1..] == turn[i + 1..];
    OneVisit(s, left, steps, inTime, runs, maxDaily);
    var visit := VisitEvents(s, turn[i], run, maxDaily);
    var rest := SweepEvents(AfterVisit(s, turn[i], run, maxDaily), turn[i + 1..], steps - 1, inTime - 1, runs, maxDaily);
    assert events + (visit + rest) == (events + visit) + rest;
    DispatchesJoin(visit, rest);
  }

  lemma {:induction false} AtStart(r: Report, s: State, turn: seq<Job>, maxSteps: nat, maxDaily: nat, inTime: nat, runs: map<Job, StepRun>,
                                   events: seq<Event>)
    requires r == Report(Idle, 0, 0, 0, 0, 0, 0)
    ensures SweptSoFar(r, s, turn, 0, s.reservations, maxSteps, maxDaily, inTime, runs)
    ensures var all := SweepEvents(s, turn, maxSteps, inTime, runs, maxDaily);
      OnCourse(events, 0, s, turn[0..], maxSteps, inTime, runs, maxDaily, events + all, Dispatches(all))
  {
    assert turn[0..] == turn && turn[..0] == [];
  }

  /** A sweep after `i` visits, with its report and its state in memory. */
  ghost predicate SweptSoFar(r: Report, s: State, rotated: seq<Job>, i: nat, reserved: nat, maxSteps: int, maxDaily: int, inTime: nat,
                             runs: map<Job, StepRun>)
  {
    && i <= |rotated| && r.visited == i && r.status == (if i == 0 then Idle else Processed)
    && (forall v: nat :: v < i ==> !Held(v, rotated, reserved, maxSteps, maxDaily, inTime, runs))
    && (if reserved + Tried(rotated[..i], runs) >= maxDaily then s.reservations >= maxDaily
        else s.reservations == reserved + Tried(rotated[..i], runs))
    && r.complete == Ended(rotated[..i], runs, Completed) && r.blocked == Ended(rotated[..i], runs, BlockedEnd)
    && r.deferred == Ended(rotated[..i], runs, Deferred) && r.denied == Ended(rotated[..i], runs, Raised)
    && (SingleCalls(runs) ==> r.dispatched == ConfirmedOf(rotated[..i], runs))
  }

  lemma HeldExactly(r: Report, s: State, rotated: seq<Job>, i: nat, reserved: nat, maxSteps: int, maxDaily: int, inTime: nat,
                    runs: map<Job, StepRun>)
    requires i < |rotated| && SweptSoFar(r, s, rotated, i, reserved, maxSteps, maxDaily, inTime, runs)
    ensures r.visited >= maxSteps || i >= inTime || s.reservations >= maxDaily
            <==> Held(i, rotated, reserved, maxSteps, maxDaily, inTime, runs)
  {
  }

  lemma SweepHeld(r: Report, s: State, rotated: seq<Job>, i: nat, reserved: nat, maxSteps: int, maxDaily: int, inTime: nat,
                  runs: map<Job, StepRun>)
    requires i < |rotated| && SweptSoFar(r, s, rotated, i, reserved, maxSteps, maxDaily, inTime, runs)
    requires Held(i, rotated, reserved, maxSteps, maxDaily, inTime, runs)
    ensures Reported(r.(status := BudgetLimited), rotated, reserved, maxSteps, maxDaily, inTime, runs)
  {
    hide Held;
  }

  lemma SweepThrough(r: Report, s: State, rotated: seq<Job>, reserved: nat, maxSteps: int, maxDaily: int, inTime: nat, runs: map<Job, StepRun>)
    requires SweptSoFar(r, s, rotated, |rotated|, reserved, maxSteps, maxDaily, inTime, runs)
    ensures Reported(r, rotated, reserved, maxSteps, maxDaily, inTime, runs)
  {
    hide Held;
  }

  lemma OneMoreSwept(r: Report, s: State, after: State, rotated: seq<Job>, i: nat, reserved: nat, maxSteps: int, maxDaily: int, inTime: nat,
                     runs: map<Job, StepRun>, dispatched: nat)
    requires i < |rotated| && SweptSoFar(r, s, rotated, i, reserved, maxSteps, maxDaily, inTime, runs)
    requires !Held(i, rotated, reserved, maxSteps, maxDaily, inTime, runs) && s.reservations < maxDaily
    requires var n := |RunOf(runs, rotated[i]).reservationWrites|;
      after.reservations == if n <= maxDaily - s.reservations then s.reservations + n else maxDaily
    requires SingleCalls(runs) ==> dispatched == Confirmed(RunOf(runs, rotated[i]).reservationWrites)
    ensures SweptSoFar(Counted(r, dispatched, RunOf(runs, rotated[i]).ending), after, rotated, i + 1, reserved, maxSteps, maxDaily, inTime, runs)
  {
    hide Held;
    assert rotated[..i + 1][..i] == rotated[..i];
  }

  lemma {:induction false} NothingCalled(s: State, job: Job, writes: seq<Write>, maxDaily: nat)
    requires writes == []
    ensures CallEvents(s, job, writes, maxDaily) == [] && Dispatches([]) == 0
  {
  }

  lemma NoDispatches()
    ensures Dispatches([]) == 0
  {
  }

  lemma {:induction false} CursorIsNoDispatch(s: State, calls: seq<Event>)
    ensures Dispatches([Cursor(s)] + calls) == Dispatches(calls)
  {
    assert ([Cursor(s)] + calls)[1..] == calls;
  }

  /** Each visit is counted once, and under at most one outcome. */
  predicate Consistent(r: Report) {
    r.complete + r.blocked + r.denied + r.deferred <= r.visited
  }

  function Counted(r: Report, dispatched: nat, ending: Ending): Report {
    var v := r.(visited := r.visited + 1, dispatched := r.dispatched + dispatched, status := Processed);
    match ending
    case Completed => v.(complete := v.complete + 1)
    case BlockedEnd => v.(blocked := v.blocked + 1)
    case Deferred => v.(deferred := v.deferred + 1)
    case Raised => v.(denied := v.denied + 1)
    case Other => v
  }

  lemma {:induction false} NoVisit(s: State, left: seq<Job>, steps: nat, inTime: nat, runs: map<Job, StepRun>,
                                   maxDaily: nat)
    requires left == []
    ensures SweepEvents(s, left, steps, inTime, runs, maxDaily) == []
  {
  }

  lemma OneVisit(s: State, left: seq<Job>, steps: nat, inTime: nat, runs: map<Job, StepRun>, maxDaily: nat)
    requires left != []
    ensures var run := if left[0] in runs then runs[left[0]] else StepRun([], Raised);
      SweepEvents(s, left, steps, inTime, runs, maxDaily)
      == if steps == 0 || inTime == 0 || s.reservations >= maxDaily then []
         else VisitEvents(s, left[0], run, maxDaily)
              + SweepEvents(AfterVisit(s, left[0], run, maxDaily), left[1..], steps - 1, inTime - 1, runs, maxDaily)
  {
  }

  lemma {:induction false} CallDispatches(reserved: State, job: Job, w: Write)
    ensures Dispatches(CallOf(reserved, job, w)) == if w.Written? then 1 else 0
  {
    var call := CallOf(reserved, job, w);
    match w
    case Written =>
      assert call[1..] == [Dispatch(job, reserved.day)] && call[1..][1..] == [];
      assert Dispatches(call[1..]) == 1;
    case Lost =>
    case Unconfirmed =>
      assert call[1..] == [];
      NoDispatches();
  }

  /** One more call: nothing when the budget is used up, otherwise a reservation and, once that is written, the call. */
  lemma ReservedCall(s: State, job: Job, writes: seq<Write>, maxDaily: nat)
    requires writes != []
    ensures var reserved := s.(reservations := s.reservations + 1);
      && CallEvents(s, job, writes, maxDaily)
         == (if s.reservations >= maxDaily then []
             else CallOf(reserved, job, writes[0]) + CallEvents(reserved, job, writes[1..], maxDaily))
      && Dispatches(CallEvents(s, job, writes, maxDaily))
         == (if s.reservations >= maxDaily then 0
             else (if writes[0].Written? then 1 else 0) + Dispatches(CallEvents(reserved, job, writes[1..], maxDaily)))
  {
    var reserved := s.(reservations := s.reservations + 1);
    if s.reservations < maxDaily {
      CallDispatches(reserved, job, writes[0]);
      DispatchesJoin(CallOf(reserved, job, writes[0]), CallEvents(reserved, job, writes[1..], maxDaily));
    }
  }

  lemma {:induction false} ReservedOnDisk(events: seq<Event>, s: State, job: Job, w: Write)
    ensures Disk(events + CallOf(s, job, w)) == if w.Lost? then Disk(events) else Some(s)
  {
    var all := events + CallOf(s, job, w);
    if w.Lost? { assert all == events; }
    if w.Written? { assert all[..|all| - 1] == events + [Reserve(s)]; }
  }

  lemma {:induction false} PassedSplits(jobs: seq<Job>, cursor: Option<Job>)
    requires Sorted(jobs) && cursor.Some?
    ensures forall i :: 0 <= i < |jobs| ==> (i < Passed(jobs, cursor) <==> jobs[i] <= cursor.value)
  {
    if jobs != [] && jobs[|jobs| - 1] > cursor.value {
      PassedSplits(jobs[..|jobs| - 1], cursor);
    }
  }
}
