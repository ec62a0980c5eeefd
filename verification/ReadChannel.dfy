/**
 The broker's channel: up to four calls at once share one session, which is replaced when it
 is old or has failed, reaped when idle, and closed at the end. Every section under the
 channel's guard is one step; calls of other threads run between them. Closing a session marks
 it dead first and can raise afterwards; where that happens decides what stays installed.
 */
module ReadChannel {
  import opened Wrappers

  type SessionId = nat
  type CallId = nat

  datatype Session = Session(failed: bool, dead: bool)

  // The reaper sleeps, or has passed its wait and is about to take the guard, or is gone.
  datatype Reaper = Sleeping | Awake | Gone

  datatype State = State(active: nat, current: Option<SessionId>, stopped: bool, reaper: Reaper,
                         sessions: map<SessionId, Session>, calls: map<CallId, SessionId>)

  const Idle := State(0, None, false, Sleeping, map[], map[])
  const SLOTS := 4

  // A call that arrives. `slot`: one of the four slots was free. `allowed`: the policy is unchanged. `aged`: the
  // session has been up for more than fifty seconds. `raises`: closing a session now would raise. `opens`: a new
  // session would start, under `newId`.
  datatype Arrival = Arrival(call: CallId, slot: bool, allowed: bool, aged: bool, raises: bool, opens: bool, newId: SessionId)

  datatype Step =
    | Enter(arrival: Arrival) | MarkFailed(call: CallId) | Exit(call: CallId)
    | Wake | Reap(idle: bool, raises: bool) | Stop | StopClose(raises: bool)

  datatype Entry = Entered(session: SessionId) | Busy | Unavailable | CloseRaised

  predicate Dead(s: State, id: SessionId) {
    id in s.sessions && s.sessions[id].dead
  }

  /** A session that is installed and was not closed. */
  predicate Open(s: State) {
    s.current.Some? && s.current.value in s.sessions && !s.sessions[s.current.value].dead
  }

  function Closed(s: State, id: SessionId): State {
    if id in s.sessions then s.(sessions := s.sessions[id := s.sessions[id].(dead := true)]) else s
  }

  /** The close of the installed session: closing a dead one does nothing, and one that raises leaves it installed. */
  function CloseCurrent(s: State, raises: bool): State {
    if s.current.None? then s
    else if raises && Open(s) then Closed(s, s.current.value)
    else Closed(s, s.current.value).(current := None)
  }

  predicate Spent(s: State, aged: bool) {
    s.current.Some? && (aged || (s.current.value in s.sessions && s.sessions[s.current.value].failed))
  }

  /** The call gets as far as the session that is there. */
  predicate Admitted(s: State, a: Arrival) {
    a.call !in s.calls && a.slot && |s.calls| < SLOTS && a.allowed && !s.stopped
  }

  function EnterStep(s: State, a: Arrival): (State, Entry) {
    if a.call in s.calls || !a.slot || |s.calls| >= SLOTS then (s, Busy)
    else if !a.allowed || s.stopped then (s, Unavailable)
    else if Spent(s, a.aged) && s.active > 0 then (s, Busy)
    else if Spent(s, a.aged) && a.raises && Open(s) then (CloseCurrent(s, true), CloseRaised)
    else
      var r := if Spent(s, a.aged) then CloseCurrent(s, false) else s;
      if r.current.None? && (!a.opens || a.newId in s.sessions) then (r, Unavailable)
      else
        var id := if r.current.Some? then r.current.value else a.newId;
        (r.(current := Some(id), active := r.active + 1, calls := r.calls[a.call := id],
            sessions := if r.current.Some? then r.sessions else r.sessions[id := Session(false, false)]), Entered(id))
  }

  function ExitStep(s: State, call: CallId): State {
    if call !in s.calls || s.active == 0 then s
    else
      var id := s.calls[call];
      var left := s.(active := s.active - 1, calls := s.calls - {call});
      if left.active == 0 && id in s.sessions && s.sessions[id].failed then Closed(left, id).(current := None) else left
  }

  /** The reaper's turn; a close that raises ends its thread. */
  function ReapStep(s: State, idle: bool, raises: bool): State {
    if s.current.Some? && s.active == 0 && idle
    then CloseCurrent(s, raises).(reaper := if raises && Open(s) then Gone else Sleeping)
    else s.(reaper := Sleeping)
  }

  function Perform(s: State, step: Step): State {
    match step
    case Enter(a) => EnterStep(s, a).0
    case MarkFailed(call) =>
      if call in s.calls && s.calls[call] in s.sessions
      then s.(sessions := s.sessions[s.calls[call] := s.sessions[s.calls[call]].(failed := true)]) else s
    case Exit(call) => ExitStep(s, call)
    case Wake => if s.reaper.Sleeping? then s.(reaper := if s.stopped then Gone else Awake) else s
    case Reap(idle, raises) => if s.reaper.Awake? then ReapStep(s, idle, raises) else s
    case Stop => s.(stopped := true)
    case StopClose(raises) => if s.stopped && s.active == 0 then CloseCurrent(s, raises) else s
  }

  function Run(s: State, steps: seq<Step>): State {
    if steps == [] then s else Perform(Run(s, steps[..|steps| - 1]), steps[|steps| - 1])
  }

  // ---------------------------------------------------------------- the invariant

  /** Calls in flight are counted, they share the current session, and no other session is open. */
  ghost predicate Inv(s: State) {
    && s.active == |s.calls| <= SLOTS
    && (forall c :: c in s.calls ==> s.current == Some(s.calls[c]))
    && (s.current.Some? ==> s.current.value in s.sessions)
    && (forall id :: id in s.sessions && !s.sessions[id].dead ==> s.current == Some(id))
  }

  lemma StepKeeps(s: State, step: Step)
    requires Inv(s)
    ensures Inv(Perform(s, step))
  {
    match step
    case Enter(a) => EnterKeeps(s, a);
    case Exit(call) => ExitKeeps(s, call);
    case _ => if s.active == 0 { assert s.calls == map[]; }
  }

  lemma EnterKeeps(s: State, a: Arrival)
    requires Inv(s)
    ensures Inv(EnterStep(s, a).0)
  {
    if s.active == 0 { assert s.calls == map[]; }
  }

  lemma ExitKeeps(s: State, call: CallId)
    requires Inv(s)
    ensures Inv(ExitStep(s, call))
  {
    if call in s.calls {
      assert (s.calls - {call}).Keys == s.calls.Keys - {call};
      assert |(s.calls - {call}).Keys| == |s.calls| - 1;
      if s.active == 1 { assert s.calls - {call} == map[]; }
    }
  }

  lemma {:induction false} RunKeeps(s: State, steps: seq<Step>)
    requires Inv(s)
    ensures Inv(Run(s, steps))
  {
    hide Perform, Inv;
    if steps != [] {
      RunKeeps(s, steps[..|steps| - 1]);
      StepKeeps(Run(s, steps[..|steps| - 1]), steps[|steps| - 1]);
    }
  }

  // ---------------------------------------------------------------- calls in flight

  /** The step closes the installed session and raises: the session stays installed, dead. */
  predicate RaisingClose(s: State, step: Step, id: SessionId) {
    && s.current == Some(id) && Open(s) && s.active == 0
    && match step
       case Enter(a) => Admitted(s, a) && Spent(s, a.aged) && a.raises
       case Reap(idle, raises) => s.reaper.Awake? && idle && raises
       case StopClose(raises) => s.stopped && raises
       case _ => false
  }

  /** Some step of the run closed this session, raised, and so left it installed. */
  predicate RaisedClosing(s: State, steps: seq<Step>, id: SessionId) {
    steps != [] &&
    (RaisedClosing(s, steps[..|steps| - 1], id)
     || RaisingClose(Run(s, steps[..|steps| - 1]), steps[|steps| - 1], id))
  }

  /** A step leaves an installed session dead exactly when it was, or when its own close raised. */
  lemma StepDeadness(s: State, step: Step, id: SessionId)
    requires Inv(s) && Perform(s, step).current == Some(id)
    ensures Dead(Perform(s, step), id) <==> (s.current == Some(id) && Dead(s, id)) || RaisingClose(s, step, id)
    ensures s.current == Some(id) || id !in s.sessions
    ensures id in Perform(s, step).sessions
  {
    hide EnterStep, ExitStep, ReapStep, CloseCurrent;
    match step
    case Enter(a) => EnterDeadness(s, a, id);
    case Exit(call) => ExitDeadness(s, call, id);
    case Reap(idle, raises) => CloseDeadness(s, raises, id); ReapIsClose(s, idle, raises);
    case StopClose(raises) => CloseDeadness(s, raises, id);
    case _ =>
  }

  lemma CloseDeadness(s: State, raises: bool, id: SessionId)
    requires Inv(s)
    ensures var u := CloseCurrent(s, raises); u.current == Some(id) ==>
      s.current == Some(id) && raises && Open(s) && Dead(u, id) && id in u.sessions
  {
  }

  lemma ReapIsClose(s: State, idle: bool, raises: bool)
    ensures var u := ReapStep(s, idle, raises);
      if s.current.Some? && s.active == 0 && idle
      then u.current == CloseCurrent(s, raises).current && u.sessions == CloseCurrent(s, raises).sessions
      else u.current == s.current && u.sessions == s.sessions
  {
    hide CloseCurrent;
  }

  lemma ExitDeadness(s: State, call: CallId, id: SessionId)
    requires Inv(s) && ExitStep(s, call).current == Some(id)
    ensures s.current == Some(id) && id in ExitStep(s, call).sessions
    ensures Dead(ExitStep(s, call), id) <==> Dead(s, id)
  {
  }

  lemma EnterDeadness(s: State, a: Arrival, id: SessionId)
    requires Inv(s) && EnterStep(s, a).0.current == Some(id)
    ensures Dead(EnterStep(s, a).0, id) <==> (s.current == Some(id) && Dead(s, id)) || RaisingClose(s, Enter(a), id)
    ensures s.current == Some(id) || id !in s.sessions
    ensures id in EnterStep(s, a).0.sessions
  {
  }

  lemma SessionsStay(s: State, step: Step, id: SessionId)
    requires id in s.sessions
    ensures id in Perform(s, step).sessions
  {
  }

  lemma {:induction false} RaisedIsKnown(steps: seq<Step>, id: SessionId)
    requires RaisedClosing(Idle, steps, id)
    ensures id in Run(Idle, steps).sessions
  {
    hide Perform, Inv;
    var before := steps[..|steps| - 1];
    if RaisedClosing(Idle, before, id) { RaisedIsKnown(before, id); }
    SessionsStay(Run(Idle, before), steps[|steps| - 1], id);
  }

  lemma {:induction false} InstalledDeadness(steps: seq<Step>, id: SessionId)
    requires Run(Idle, steps).current == Some(id)
    ensures Dead(Run(Idle, steps), id) <==> RaisedClosing(Idle, steps, id)
  {
    hide Perform, Inv, RaisingClose;
    if steps != [] {
      var before, step := steps[..|steps| - 1], steps[|steps| - 1];
      var s := Run(Idle, before);
      StartFits();
      RunKeeps(Idle, before);
      StepDeadness(s, step, id);
      if s.current == Some(id) {
        InstalledDeadness(before, id);
      } else if RaisedClosing(Idle, before, id) {
        RaisedIsKnown(before, id);
      }
    }
  }

  lemma StartFits()
    ensures Inv(Idle)
  {
  }

  /**
   Under any interleaving of calls, reaping and stopping: while a call is in flight its session is
   the channel's own, `active` counts exactly the calls in flight, and they are at most four. The
   session is open if and only if no close of it has raised.
   */
  lemma {:induction false} CallsKeepTheirSession(steps: seq<Step>, call: CallId)
    requires call in Run(Idle, steps).calls
    ensures var s := Run(Idle, steps);
      && s.current == Some(s.calls[call]) && s.calls[call] in s.sessions && 0 < s.active == |s.calls| <= SLOTS
      && (Open(s) <==> !RaisedClosing(Idle, steps, s.calls[call]))
  {
    hide Run, RaisedClosing;
    StartFits();
    RunKeeps(Idle, steps);
    var s := Run(Idle, steps);
    assert s.calls != map[];
    InstalledDeadness(steps, s.calls[call]);
  }

  /** Such a call exists: the reaper's close raises, and the next call is given the dead session. */
  lemma CallOnDeadSession()
    ensures var enter := Enter(Arrival(1, true, true, false, false, true, 7));
      var steps := [enter, Exit(1), Wake, Reap(true, true), enter];
      var s := Run(Idle, steps);
      1 in s.calls && s.calls[1] == 7 && !Open(s) && s.reaper.Gone?
  {
    var enter := Enter(Arrival(1, true, true, false, false, true, 7));
    var s1 := Perform(Idle, enter);
    assert s1 == State(1, Some(7), false, Sleeping, map[7 := Session(false, false)], map[1 := 7]);
    var s2 := Perform(s1, Exit(1));
    assert s2 == State(0, Some(7), false, Sleeping, map[7 := Session(false, false)], map[]);
    var s4 := Perform(Perform(s2, Wake), Reap(true, true));
    assert s4 == State(0, Some(7), false, Gone, map[7 := Session(false, true)], map[]);
    FiveSteps(Idle, enter, Exit(1), Wake, Reap(true, true), enter);
  }

  lemma {:induction false} FiveSteps(s: State, a: Step, b: Step, c: Step, d: Step, e: Step)
    ensures Run(s, [a, b, c, d, e]) == Perform(Perform(Perform(Perform(Perform(s, a), b), c), d), e)
  {
    hide Perform;
    FourSteps(s, a, b, c, d);
    assert [a, b, c, d, e][..4] == [a, b, c, d];
  }

  lemma {:induction false} FourSteps(s: State, a: Step, b: Step, c: Step, d: Step)
    ensures Run(s, [a, b, c, d]) == Perform(Perform(Perform(Perform(s, a), b), c), d)
  {
    hide Perform;
    assert [a][..0] == [];
    assert Run(s, [a]) == Perform(s, a);
    assert [a, b][..1] == [a];
    assert Run(s, [a, b]) == Perform(Run(s, [a]), b);
    assert [a, b, c][..2] == [a, b];
    assert Run(s, [a, b, c]) == Perform(Run(s, [a, b]), c);
    assert [a, b, c, d][..3] == [a, b, c];
  }

  /** While calls are in flight, no step replaces the session or closes it. */
  lemma {:induction false} NeverClosedInUse(steps: seq<Step>, step: Step)
    requires Run(Idle, steps).active > 0
    ensures var s, u := Run(Idle, steps), Perform(Run(Idle, steps), step);
      u.active > 0 ==> u.current == s.current && s.current.Some? && (Open(u) <==> Open(s))
  {
    hide Run;
    StartFits();
    RunKeeps(Idle, steps);
    var s := Run(Idle, steps);
    assert s.calls != map[];
    var c :| c in s.calls;
    assert s.current == Some(s.calls[c]);
  }

  /** At most one session is open at any time. */
  lemma {:induction false} OneOpenSession(steps: seq<Step>, a: SessionId, b: SessionId)
    requires a in Run(Idle, steps).sessions && !Run(Idle, steps).sessions[a].dead
    requires b in Run(Idle, steps).sessions && !Run(Idle, steps).sessions[b].dead
    ensures a == b
  {
    hide Run;
    StartFits();
    RunKeeps(Idle, steps);
  }

  // ---------------------------------------------------------------- closing the channel

  /** The state right after a close of the channel: both of its sections have run. */
  function AfterClose(s: State, raises: bool): State {
    Perform(Perform(s, Stop), StopClose(raises))
  }

  /** Some step of the run marked the session of a call in flight as failed. */
  predicate Marked(s: State, steps: seq<Step>) {
    steps != [] &&
    (Marked(s, steps[..|steps| - 1])
     || (steps[|steps| - 1].MarkFailed? && steps[|steps| - 1].call in Run(s, steps[..|steps| - 1]).calls))
  }

  /** A reaper that had passed its wait before the stop took its turn after the last call ended. */
  predicate LateReap(s: State, steps: seq<Step>) {
    steps != [] &&
    (LateReap(s, steps[..|steps| - 1])
     || (steps[|steps| - 1].Reap? && steps[|steps| - 1].idle
         && Run(s, steps[..|steps| - 1]).reaper.Awake? && Run(s, steps[..|steps| - 1]).active == 0))
  }

  predicate NoOtherClose(steps: seq<Step>) {
    forall i :: 0 <= i < |steps| ==> !steps[i].StopClose?
  }

  /** What a run after a close keeps of the session that was in use then. */
  ghost predicate Tracks(u: State, id: SessionId, steps: seq<Step>)
    requires id in u.sessions
  {
    var w := Run(u, steps);
    && w.stopped && id in w.sessions && (w.current.Some? ==> w.current == Some(id))
    && (w.sessions[id].failed <==> u.sessions[id].failed || Marked(u, steps))
    && (Open(w) <==> !LateReap(u, steps) && !(w.calls == map[] && w.sessions[id].failed))
  }

  lemma {:induction false} TracksOn(u: State, id: SessionId, steps: seq<Step>)
    requires Inv(u) && u.stopped && u.active > 0 && Open(u) && u.current == Some(id) && NoOtherClose(steps)
    ensures Tracks(u, id, steps)
    decreases |steps|
  {
    if steps == [] {
      assert u.calls != map[];
    } else {
      var before, step := steps[..|steps| - 1], steps[|steps| - 1];
      TracksOn(u, id, before);
      RunKeeps(u, before);
      TracksStep(u, id, steps);
    }
  }

  lemma {:induction false} TracksStep(u: State, id: SessionId, steps: seq<Step>)
    requires steps != [] && id in u.sessions && !steps[|steps| - 1].StopClose?
    requires Inv(Run(u, steps[..|steps| - 1])) && Tracks(u, id, steps[..|steps| - 1])
    ensures Tracks(u, id, steps)
  {
    hide Perform;
    var before, step := steps[..|steps| - 1], steps[|steps| - 1];
    var w := Run(u, before);
    StoppedStep(w, step, id);
    if w.calls == map[] { assert w.active == 0; }
  }

  /** One step of a stopped channel, in the terms of what is tracked. */
  lemma StoppedStep(w: State, step: Step, id: SessionId)
    requires Inv(w) && w.stopped && id in w.sessions && (w.current.Some? ==> w.current == Some(id)) && !step.StopClose?
    ensures var v := Perform(w, step);
      var marks := step.MarkFailed? && step.call in w.calls;
      var reaps := step.Reap? && step.idle && w.reaper.Awake? && w.active == 0;
      && v.stopped && id in v.sessions && (v.current.Some? ==> v.current == Some(id))
      && (v.sessions[id].failed <==> w.sessions[id].failed || marks)
      && (Open(v) <==> Open(w) && !reaps && !(v.calls == map[] && v.sessions[id].failed && w.calls != map[]))
      && (w.calls == map[] ==> v.calls == map[] && !marks) && (reaps ==> w.calls == map[])
  {
    if w.calls != map[] {
      var c :| c in w.calls;
      assert w.current == Some(w.calls[c]);
    }
    match step
    case Exit(call) => StoppedExit(w, call, id);
    case _ =>
  }

  lemma StoppedExit(w: State, call: CallId, id: SessionId)
    requires Inv(w) && w.stopped && id in w.sessions && (w.current.Some? ==> w.current == Some(id))
    ensures var v := ExitStep(w, call);
      && v.stopped && id in v.sessions && (v.current.Some? ==> v.current == Some(id))
      && v.sessions[id].failed == w.sessions[id].failed
      && (Open(v) <==> Open(w) && !(v.calls == map[] && v.sessions[id].failed && w.calls != map[]))
      && (w.calls == map[] ==> v.calls == map[])
  {
    if call in w.calls {
      assert (w.calls - {call}).Keys == w.calls.Keys - {call};
      assert |(w.calls - {call}).Keys| == |w.calls| - 1;
      if w.active == 1 { assert w.calls - {call} == map[]; }
    }
  }

  lemma {:induction false} StaysShut(u: State, steps: seq<Step>)
    requires Inv(u) && u.stopped && !Open(u)
    ensures Run(u, steps).stopped && !Open(Run(u, steps))
  {
    if steps != [] {
      StaysShut(u, steps[..|steps| - 1]);
      RunKeeps(u, steps[..|steps| - 1]);
      ShutStep(Run(u, steps[..|steps| - 1]), steps[|steps| - 1]);
    }
  }

  lemma ShutStep(s: State, step: Step)
    requires Inv(s) && s.stopped && !Open(s)
    ensures Perform(s, step).stopped && !Open(Perform(s, step))
  {
  }

  /**
   When a close of the channel leaves its session open for good. After the close, and any steps but
   another close until the last call has ended, the session is open if and only if it was open and
   in use at the close, was not marked failed before or by a call still in flight, and no reaper
   that was already past its wait came to it.
   */
  lemma {:induction false} LeftOpenExactly(s: State, raises: bool, steps: seq<Step>)
    requires Inv(s) && NoOtherClose(steps) && Run(AfterClose(s, raises), steps).calls == map[]
    ensures var u := AfterClose(s, raises);
      Open(Run(u, steps)) <==>
        && Open(s) && s.active > 0 && !s.sessions[s.current.value].failed
        && !Marked(u, steps) && !LateReap(u, steps)
  {
    hide Run, Marked, LateReap;
    var u := AfterClose(s, raises);
    StepKeeps(s, Stop);
    StepKeeps(Perform(s, Stop), StopClose(raises));
    if s.active > 0 && Open(s) {
      TracksOn(u, s.current.value, steps);
    } else {
      StaysShut(u, steps);
    }
  }

  predicate Raises(step: Step) {
    match step
    case Enter(a) => a.raises
    case Reap(_, raises) => raises
    case StopClose(raises) => raises
    case _ => false
  }

  ghost predicate NothingDead(s: State) {
    s.current.Some? ==> Open(s)
  }

  lemma {:induction false} NothingDeadOn(s: State, steps: seq<Step>)
    requires Inv(s) && NothingDead(s) && forall i :: 0 <= i < |steps| ==> !Raises(steps[i])
    ensures NothingDead(Run(s, steps))
  {
    if steps != [] {
      NothingDeadOn(s, steps[..|steps| - 1]);
      RunKeeps(s, steps[..|steps| - 1]);
      NothingDeadStep(Run(s, steps[..|steps| - 1]), steps[|steps| - 1]);
    }
  }

  lemma NothingDeadStep(s: State, step: Step)
    requires Inv(s) && NothingDead(s) && !Raises(step)
    ensures NothingDead(Perform(s, step))
  {
  }

  /** Where no close raises, the same condition decides whether the channel still has a session at all. */
  lemma {:induction false} SessionGoneExactly(s: State, steps: seq<Step>)
    requires Inv(s) && NothingDead(s) && NoOtherClose(steps) && Run(AfterClose(s, false), steps).calls == map[]
    requires forall i :: 0 <= i < |steps| ==> !Raises(steps[i])
    ensures var u := AfterClose(s, false);
      Run(u, steps).current.None? <==>
        s.current.None? || s.active == 0 || s.sessions[s.current.value].failed || Marked(u, steps) || LateReap(u, steps)
  {
    hide Run, Marked, LateReap;
    var u := AfterClose(s, false);
    StepKeeps(s, Stop);
    StepKeeps(Perform(s, Stop), StopClose(false));
    NothingDeadStep(s, Stop);
    NothingDeadStep(Perform(s, Stop), StopClose(false));
    NothingDeadOn(u, steps);
    LeftOpenExactly(s, false, steps);
  }

  /** Once stopped and idle with the reaper asleep or gone, nothing but another close changes what is installed. */
  lemma {:induction false} LeftOpen(s: State, steps: seq<Step>)
    requires Inv(s) && s.stopped && s.active == 0 && !s.reaper.Awake? && NoOtherClose(steps)
    ensures Run(s, steps).(reaper := s.reaper) == s && !Run(s, steps).reaper.Awake?
  {
    if steps != [] {
      LeftOpen(s, steps[..|steps| - 1]);
      assert s.calls == map[];
    }
  }

  /** Such a state is reached: a call is in flight when the channel closes, and ends well. */
  lemma ClosedWhileBusy()
    ensures var enter := Enter(Arrival(1, true, true, false, false, true, 7));
      var s := Run(Idle, [enter, Stop, StopClose(false), Exit(1)]);
      s.stopped && s.active == 0 && s.current == Some(7) && Open(s)
  {
    var enter := Enter(Arrival(1, true, true, false, false, true, 7));
    var s1 := Perform(Idle, enter);
    assert s1 == State(1, Some(7), false, Sleeping, map[7 := Session(false, false)], map[1 := 7]);
    var s3 := Perform(Perform(s1, Stop), StopClose(false));
    assert s3 == s1.(stopped := true);
    FourSteps(Idle, enter, Stop, StopClose(false), Exit(1));
  }

  // ---------------------------------------------------------------- how a call is answered

  /**
   A spent session is old or has failed. A call is busy when no slot is free, or the session is spent
   and still in use; otherwise a spent session is closed first, and a new one started where there is
   none. A close that raises leaves the dead session installed.
   */
  ghost predicate EntryTable(s: State, u: State, a: Arrival, r: Entry)
    requires s.current.Some? ==> s.current.value in s.sessions
  {
    var spent := s.current.Some? && (a.aged || s.sessions[s.current.value].failed);
    var open := s.current.Some? && !s.sessions[s.current.value].dead;
    var asked := a.slot && a.allowed && !s.stopped;
    && (r.Busy? <==> !a.slot || (asked && spent && s.active > 0))
    && (r.CloseRaised? <==> asked && spent && s.active == 0 && a.raises && open)
    && (r.Entered? <==> asked && if spent then s.active == 0 && !(a.raises && open) && a.opens else s.current.Some? || a.opens)
    && u.stopped == s.stopped && u.reaper == s.reaper
    && match r
       case Busy => u == s
       case CloseRaised => u == s.(sessions := s.sessions[s.current.value := s.sessions[s.current.value].(dead := true)])
       case Unavailable =>
         u == if asked && spent then s.(current := None, sessions := s.sessions[s.current.value := s.sessions[s.current.value].(dead := true)]) else s
       case Entered(id) =>
         && u.current == Some(id) && u.active == s.active + 1 && u.calls == s.calls[a.call := id]
         && if s.current.Some? && !spent then s.current == Some(id) && u.sessions == s.sessions
            else
              && id == a.newId
              && var kept := if spent then s.sessions[s.current.value := s.sessions[s.current.value].(dead := true)] else s.sessions;
              u.sessions == kept[id := Session(false, false)]
  }

  lemma EntryIsTable(s: State, a: Arrival)
    requires Inv(s) && a.call !in s.calls && (a.slot ==> |s.calls| < SLOTS) && a.newId !in s.sessions
    ensures EntryTable(s, EnterStep(s, a).0, a, EnterStep(s, a).1)
  {
  }

  // ---------------------------------------------------------------- the channel the program updates

  class Channel {
    var active: nat
    var session: Option<SessionId>
    var stopped: bool
    var reaper: Reaper
    var sessions: map<SessionId, Session>
    ghost var calls: map<CallId, SessionId>

    ghost function View(): State
      reads this
    {
      State(active, session, stopped, reaper, sessions, calls)
    }

    ghost predicate Valid()
      reads this
    {
      Inv(View())
    }

    constructor ()
      ensures Valid() && View() == Idle
    {
      active, session, stopped, reaper, sessions, calls := 0, None, false, Sleeping, map[], map[];
    }

    /** A session is dead from the first line of its close on; only an open one has anything that can raise. */
    method CloseSession(id: SessionId, raises: bool) returns (raised: bool)
      requires id in sessions
      modifies this`sessions
      ensures sessions == old(sessions)[id := old(sessions)[id].(dead := true)]
      ensures raised <==> raises && !old(sessions)[id].dead
    {
      if sessions[id].dead {
        assert sessions == sessions[id := sessions[id]];
        return false;
      }
      sessions := sessions[id := sessions[id].(dead := true)];
      return raises;
    }

    /** The start of a call, under the guard: a spent session is closed only when nobody uses it. */
    method EnterCall(a: Arrival) returns (r: Entry)
      requires Valid() && a.call !in calls && (a.slot ==> |calls| < SLOTS) && a.newId !in sessions
      modifies this
      ensures Valid()
      ensures var (after, entry) := EnterStep(old(View()), a); View() == after && r == entry
      ensures EntryTable(old(View()), View(), a, r)
    {
      EnterKeeps(View(), a);
      EntryIsTable(View(), a);
      hide EntryTable;
      if !a.slot { return Busy; }
      if !a.allowed { return Unavailable; }
      if stopped { return Unavailable; }
      if session.Some? && (sessions[session.value].failed || a.aged) {
        if active > 0 { return Busy; }
        var raised := CloseSession(session.value, a.raises);
        if raised { return CloseRaised; }
        session := None;
      }
      if session.None? {
        if !a.opens { return Unavailable; }
        sessions := sessions[a.newId := Session(false, false)];
        session := Some(a.newId);
      }
      active := active + 1;
      calls := calls[a.call := session.value];
      return Entered(session.value);
    }

    /** A call that failed in a way that condemns its session. */
    method Condemn(call: CallId, id: SessionId)
      requires Valid() && call in calls && calls[call] == id
      modifies this`sessions
      ensures Valid() && View() == Perform(old(View()), MarkFailed(call))
      ensures sessions == old(sessions)[id := Session(true, old(sessions)[id].dead)]
    {
      sessions := sessions[id := sessions[id].(failed := true)];
    }

    /** The end of a call: the last one out takes a condemned session away, and closes it. */
    method ExitCall(call: CallId, id: SessionId, raises: bool) returns (raised: bool)
      requires Valid() && call in calls && calls[call] == id
      modifies this
      ensures Valid() && View() == ExitStep(old(View()), call)
      ensures active == old(active) - 1 && calls == old(calls) - {call} && stopped == old(stopped) && reaper == old(reaper)
      ensures if old(active) == 1 && old(sessions)[id].failed
              then session.None? && sessions == old(sessions)[id := Session(true, true)] && (raised <==> raises && !old(sessions)[id].dead)
              else session == old(session) && sessions == old(sessions) && !raised
    {
      ExitKeeps(View(), call);
      assert calls != map[];
      raised := false;
      active := active - 1;
      calls := calls - {call};
      if active == 0 && sessions[id].failed {
        session := None;
        raised := CloseSession(id, raises);
      }
    }

    /** The reaper wakes from its wait; the turn it then takes may come after a stop. */
    method WakeReaper()
      requires Valid()
      modifies this`reaper
      ensures Valid() && View() == Perform(old(View()), Wake)
      ensures reaper == if old(reaper).Sleeping? then (if stopped then Gone else Awake) else old(reaper)
    {
      if reaper.Sleeping? { reaper := if stopped then Gone else Awake; }
    }

    method ReapIdle(idle: bool, raises: bool)
      requires Valid() && reaper.Awake?
      modifies this
      ensures Valid() && View() == Perform(old(View()), Reap(idle, raises))
      ensures active == old(active) && calls == old(calls) && stopped == old(stopped)
      ensures if old(session).Some? && old(active) == 0 && idle then
          && sessions == old(sessions)[old(session).value := Session(old(sessions)[old(session).value].failed, true)]
          && (if raises && !old(sessions)[old(session).value].dead then session == old(session) && reaper.Gone?
              else session.None? && reaper.Sleeping?)
        else session == old(session) && sessions == old(sessions) && reaper.Sleeping?
    {
      StepKeeps(View(), Reap(idle, raises));
      reaper := Sleeping;
      if session.Some? && active == 0 && idle {
        var raised := CloseSession(session.value, raises);
        if raised { reaper := Gone; } else { session := None; }
      }
    }

    method Close(raises: bool) returns (raised: bool)
      requires Valid()
      modifies this
      ensures Valid() && View() == AfterClose(old(View()), raises)
      ensures stopped && active == old(active) && calls == old(calls) && reaper == old(reaper)
      ensures if old(session).Some? && old(active) == 0 then
          && sessions == old(sessions)[old(session).value := Session(old(sessions)[old(session).value].failed, true)]
          && (raised <==> raises && !old(sessions)[old(session).value].dead) && session == (if raised then old(session) else None)
        else session == old(session) && sessions == old(sessions) && !raised
    {
      StepKeeps(View(), Stop);
      stopped := true;
      StepKeeps(View(), StopClose(raises));
      raised := false;
      if session.Some? && active == 0 {
        raised := CloseSession(session.value, raises);
        if !raised { session := None; }
      }
    }
  }
}
