/**
 The exclusion between the live read channel and every other RDP execution: a lock that dies
 with its process, a marker file that does not, and a signed receipt that only the remote side
 of a session can write, when it has stopped. Channel starts, legacy starts, closes, crashes
 and recoveries interleave step by step.
 */
module ChannelLease {
  import opened Wrappers

  type SessionId = nat
  type Pid = nat

  // The marker names one session. A crash while it is written leaves a file nobody can read.
  datatype Marker = Absent | Names(session: SessionId) | Torn

  datatype Proc =
    | Locked(session: SessionId)      // a channel session holds the lock
    | Clear(session: SessionId)       // it found no marker
    | Marked(session: SessionId)      // it wrote its marker
    | Connected(session: SessionId)   // its RDP session has started
    | Confirmed(session: SessionId)   // it is closing, and read the receipt of its own session
    | LegacyLocked | LegacyClear | LegacyRunning
    | Recovering

  // `receipts[s]`: session s has started, and whether its remote side has reported that it stopped.
  datatype State = State(lock: Option<Pid>, marker: Marker, procs: map<Pid, Proc>, receipts: map<SessionId, bool>)

  datatype Step =
    | TakeLock(pid: Pid, session: SessionId) | ReadMarker(pid: Pid) | Acquire(pid: Pid) | AcquireTorn(pid: Pid) | Connect(pid: Pid)
    | RemoteStops(session: SessionId) | ReadReceipt(pid: Pid) | Release(pid: Pid) | Leave(pid: Pid)
    | LegacyLock(pid: Pid) | LegacyCheck(pid: Pid) | LegacyStart(pid: Pid)
    | RecoverLock(pid: Pid) | Recover(pid: Pid)

  const Start := State(None, Absent, map[], map[])

  predicate Used(s: State, session: SessionId) {
    session in s.receipts || s.marker == Names(session) || exists p :: p in s.procs && OwnedBy(s.procs[p], session)
  }

  predicate OwnedBy(p: Proc, session: SessionId) {
    (p.Locked? || p.Clear? || p.Marked? || p.Connected? || p.Confirmed?) && p.session == session
  }

  function With(s: State, pid: Pid, p: Proc): State {
    s.(procs := s.procs[pid := p])
  }

  /** The process is gone, whether it ended, raised or was killed; its lock goes with it. */
  function Without(s: State, pid: Pid): State {
    s.(procs := s.procs - {pid}, lock := if s.lock == Some(pid) then None else s.lock)
  }

  predicate At(s: State, pid: Pid, p: Proc) {
    pid in s.procs && s.procs[pid] == p
  }

  /** One step. A check that fails ends its process, with its lock and without touching the marker. */
  function Perform(s: State, step: Step): State {
    match step
    case TakeLock(pid, session) =>
      if pid in s.procs || Used(s, session) || s.lock.Some? then s else With(s, pid, Locked(session)).(lock := Some(pid))
    case ReadMarker(pid) =>
      if pid in s.procs && s.procs[pid].Locked? then
        if s.marker.Absent? then With(s, pid, Clear(s.procs[pid].session)) else Without(s, pid)
      else s
    case Acquire(pid) =>
      if pid in s.procs && s.procs[pid].Clear? then
        if s.marker.Absent? then With(s, pid, Marked(s.procs[pid].session)).(marker := Names(s.procs[pid].session)) else Without(s, pid)
      else s
    case AcquireTorn(pid) =>
      if pid in s.procs && s.procs[pid].Clear? && s.marker.Absent? then Without(s, pid).(marker := Torn) else s
    case Connect(pid) =>
      if pid in s.procs && s.procs[pid].Marked? then
        var session := s.procs[pid].session;
        if s.marker.Absent? || s.marker == Names(session)
        then With(s, pid, Connected(session)).(receipts := s.receipts[session := false]) else Without(s, pid)
      else s
    case RemoteStops(session) => if session in s.receipts then s.(receipts := s.receipts[session := true]) else s
    case ReadReceipt(pid) =>
      if pid in s.procs && s.procs[pid].Connected? && s.procs[pid].session in s.receipts && s.receipts[s.procs[pid].session]
      then With(s, pid, Confirmed(s.procs[pid].session)) else s
    case Release(pid) =>
      if pid in s.procs && s.procs[pid].Confirmed? && s.marker == Names(s.procs[pid].session) then Without(s, pid).(marker := Absent) else s
    case Leave(pid) => Without(s, pid)
    case LegacyLock(pid) =>
      if pid in s.procs || s.lock.Some? then s else With(s, pid, LegacyLocked).(lock := Some(pid))
    case LegacyCheck(pid) =>
      if At(s, pid, LegacyLocked) then if s.marker.Absent? then With(s, pid, LegacyClear) else Without(s, pid) else s
    case LegacyStart(pid) => if At(s, pid, LegacyClear) then With(s, pid, LegacyRunning) else s
    case RecoverLock(pid) =>
      if pid in s.procs || s.lock.Some? then s else With(s, pid, Recovering).(lock := Some(pid))
    case Recover(pid) =>
      if At(s, pid, Recovering) then
        if s.marker.Names? && s.marker.session in s.receipts && s.receipts[s.marker.session]
        then Without(s, pid).(marker := Absent) else Without(s, pid)
      else s
  }

  function Run(s: State, steps: seq<Step>): State {
    if steps == [] then s else Perform(Run(s, steps[..|steps| - 1]), steps[|steps| - 1])
  }

  // ---------------------------------------------------------------- the invariant

  predicate ProcFits(s: State, p: Proc) {
    match p
    case Clear(session) => s.marker.Absent? && session !in s.receipts
    case Locked(session) => session !in s.receipts
    case Marked(session) => s.marker == Names(session) && session !in s.receipts
    case Connected(session) => s.marker == Names(session) && session in s.receipts
    case Confirmed(session) => s.marker == Names(session) && session in s.receipts && s.receipts[session]
    case LegacyClear => s.marker.Absent?
    case _ => true
  }

  /** Every process works under the lock, and a session without a receipt is the one the marker names. */
  ghost predicate Inv(s: State) {
    && (forall p :: p in s.procs ==> s.lock == Some(p) && ProcFits(s, s.procs[p]))
    && (forall id :: id in s.receipts && !s.receipts[id] ==> s.marker == Names(id))
  }

  lemma StepKeeps(s: State, step: Step)
    requires Inv(s)
    ensures Inv(Perform(s, step))
  {
  }

  lemma {:induction false} RunKeeps(steps: seq<Step>)
    ensures Inv(Run(Start, steps))
  {
    hide Perform;
    if steps != [] {
      RunKeeps(steps[..|steps| - 1]);
      StepKeeps(Run(Start, steps[..|steps| - 1]), steps[|steps| - 1]);
    }
  }

  // ---------------------------------------------------------------- the main results

  /** The step starts an RDP execution: a channel session's, or a legacy caller's. */
  predicate StartsRdp(s: State, step: Step) {
    match step
    case Connect(pid) => pid in s.procs && s.procs[pid].Marked? && Perform(s, step) != Without(s, pid)
    case LegacyStart(pid) => At(s, pid, LegacyClear)
    case _ => false
  }

  /**
   However channel starts, legacy starts, closes, crashes and recoveries interleave: when an RDP
   execution starts, every channel session that ever started before has given its stop receipt.
   */
  lemma {:induction false} Quarantine(steps: seq<Step>, step: Step, earlier: SessionId)
    requires StartsRdp(Run(Start, steps), step) && earlier in Run(Start, steps).receipts
    ensures Run(Start, steps).receipts[earlier]
  {
    hide Run, Used;
    RunKeeps(steps);
  }

  /** Over a free lock and no marker, a legacy caller does start its execution. */
  lemma {:induction false} LegacyStarts(s: State, pid: Pid)
    requires s.lock.None? && s.marker.Absent? && pid !in s.procs
    ensures StartsRdp(Run(s, [LegacyLock(pid), LegacyCheck(pid)]), LegacyStart(pid))
    ensures At(Perform(Run(s, [LegacyLock(pid), LegacyCheck(pid)]), LegacyStart(pid)), pid, LegacyRunning)
  {
    assert [LegacyLock(pid), LegacyCheck(pid)][..1] == [LegacyLock(pid)] && [LegacyLock(pid)][..0] == [];
    assert Run(s, [LegacyLock(pid)]) == Perform(s, LegacyLock(pid));
  }

  /** So at most one started session is without a receipt at any time. */
  lemma {:induction false} OneOutstanding(steps: seq<Step>, a: SessionId, b: SessionId)
    requires a in Run(Start, steps).receipts && !Run(Start, steps).receipts[a]
    requires b in Run(Start, steps).receipts && !Run(Start, steps).receipts[b]
    ensures a == b
  {
    hide Run;
    RunKeeps(steps);
  }

  /** A marker goes only with the receipt of the very session it names; one that cannot be read never goes. */
  lemma {:induction false} MarkerRemovedByReceipt(steps: seq<Step>, step: Step)
    requires !Run(Start, steps).marker.Absent? && Perform(Run(Start, steps), step).marker != Run(Start, steps).marker
    ensures Perform(Run(Start, steps), step).marker.Absent? && Run(Start, steps).marker.Names?
    ensures Run(Start, steps).marker.session in Run(Start, steps).receipts && Run(Start, steps).receipts[Run(Start, steps).marker.session]
    ensures step.Release? || step.Recover?
  {
    hide Run, Used;
    RunKeeps(steps);
  }

  /** A receipt, once given, is never taken back, and no session starts twice. */
  lemma {:induction false} ReceiptsStay(a: seq<Step>, b: seq<Step>, id: SessionId)
    requires id in Run(Start, a).receipts && Run(Start, a).receipts[id]
    ensures id in Run(Start, a + b).receipts && Run(Start, a + b).receipts[id]
  {
    hide Perform;
    if b == [] {
      assert a + b == a;
    } else {
      var before := a + b[..|b| - 1];
      assert (a + b)[..|a + b| - 1] == before;
      ReceiptsStay(a, b[..|b| - 1], id);
      RunKeeps(before);
      ReceiptKept(Run(Start, before), b[|b| - 1], id);
    }
  }

  lemma ReceiptKept(s: State, step: Step, id: SessionId)
    requires Inv(s) && id in s.receipts && s.receipts[id]
    ensures id in Perform(s, step).receipts && Perform(s, step).receipts[id]
  {
    hide Used;
  }

  /** A marker without a receipt keeps every later start out, until the receipt arrives: crashes and time do not help. */
  lemma {:induction false} OnlyTheReceiptOpens(a: seq<Step>, b: seq<Step>, id: SessionId)
    requires id in Run(Start, a).receipts && !Run(Start, a).receipts[id]
    requires forall i :: 0 <= i < |b| ==> b[i] != RemoteStops(id)
    ensures Run(Start, a + b).marker == Names(id) && id in Run(Start, a + b).receipts && !Run(Start, a + b).receipts[id]
  {
    hide Perform;
    if b == [] {
      assert a + b == a;
      RunKeeps(a);
    } else {
      var before := a + b[..|b| - 1];
      assert (a + b)[..|a + b| - 1] == before;
      OnlyTheReceiptOpens(a, b[..|b| - 1], id);
      RunKeeps(before);
      StaysOutstanding(Run(Start, before), b[|b| - 1], id);
    }
  }

  lemma StaysOutstanding(s: State, step: Step, id: SessionId)
    requires Inv(s) && id in s.receipts && !s.receipts[id] && step != RemoteStops(id)
    ensures Perform(s, step).marker == Names(id) && id in Perform(s, step).receipts && !Perform(s, step).receipts[id]
  {
    hide Used;
  }

  // ---------------------------------------------------------------- the operations the program runs

  /** The directory that all sessions of one destination share. */
  class Root {
    var lock: Option<Pid>
    var marker: Marker
    var receipts: map<SessionId, bool>
    ghost var procs: map<Pid, Proc>

    ghost function View(): State
      reads this
    {
      State(lock, marker, procs, receipts)
    }

    constructor ()
      ensures View() == Start
    {
      lock, marker, receipts, procs := None, Absent, map[], map[];
    }

    /**
     Start of a channel session. It starts only under the lock and over no marker; one that fails
     after its marker was written leaves the marker behind.
     */
    method StartSession(pid: Pid, session: SessionId, connects: bool) returns (started: bool, ghost steps: seq<Step>)
      requires Inv(View()) && pid !in procs && !Used(View(), session)
      modifies this
      ensures Inv(View()) && Run(old(View()), steps) == View()
      ensures started <==> old(lock).None? && old(marker).Absent? && connects
      ensures started ==> lock == Some(pid) && marker == Names(session) && receipts == old(receipts)[session := false]
      ensures !started ==> lock == old(lock) && receipts == old(receipts)
      ensures !started ==> marker == if old(lock).None? && old(marker).Absent? then Names(session) else old(marker)
    {
      hide Inv, Used, Run;
      ghost var s := View();
      steps := [];
      NoSteps(s);
      if lock.Some? { return false, steps; }
      lock := Some(pid);
      procs := procs[pid := Locked(session)];
      Advance(s, steps, TakeLock(pid, session));
      steps := steps + [TakeLock(pid, session)];
      Advance(s, steps, ReadMarker(pid));
      steps := steps + [ReadMarker(pid)];
      if !marker.Absent? {
        lock := None;
        procs := procs - {pid};
        assert Run(s, steps) == View();
        return false, steps;
      }
      assert Run(s, steps) == View().(procs := procs[pid := Clear(session)]);
      marker := Names(session);
      procs := procs[pid := Marked(session)];
      Advance(s, steps, Acquire(pid));
      steps := steps + [Acquire(pid)];
      assert Run(s, steps) == View();
      if !connects {
        lock := None;
        procs := procs - {pid};
        Advance(s, steps, Leave(pid));
        steps := steps + [Leave(pid)];
        assert Run(s, steps) == View();
        return false, steps;
      }
      receipts := receipts[session := false];
      procs := procs[pid := Connected(session)];
      Advance(s, steps, Connect(pid));
      steps := steps + [Connect(pid)];
      assert Run(s, steps) == View();
      return true, steps;
    }

    /** Close of a session: the marker goes if and only if its own receipt was read in time; the lock goes anyway. */
    method CloseSession(pid: Pid, session: SessionId, inTime: bool) returns (confirmed: bool, ghost steps: seq<Step>)
      requires Inv(View()) && pid in procs && procs[pid] == Connected(session) && session in receipts
      modifies this
      ensures Inv(View()) && Run(old(View()), steps) == View()
      ensures confirmed <==> inTime && old(receipts)[session]
      ensures marker == (if confirmed then Absent else old(marker)) && lock == None && receipts == old(receipts)
    {
      hide Inv, Used, Run;
      ghost var s := View();
      OwnerHolds(s, pid);
      steps := [];
      NoSteps(s);
      confirmed := inTime && receipts[session];
      if confirmed {
        procs := procs[pid := Confirmed(session)];
        Advance(s, steps, ReadReceipt(pid));
        steps := steps + [ReadReceipt(pid)];
        marker := Absent;
        procs := procs - {pid};
        lock := None;
        Advance(s, steps, Release(pid));
        steps := steps + [Release(pid)];
        assert Run(s, steps) == View();
      } else {
        procs := procs - {pid};
        lock := None;
        Advance(s, steps, Leave(pid));
        steps := steps + [Leave(pid)];
        assert Run(s, steps) == View();
      }
    }

    /** Recovery clears a marker only over the receipt of the session it names. */
    method RecoverStopped(pid: Pid) returns (cleared: bool, ghost steps: seq<Step>)
      requires Inv(View()) && pid !in procs
      modifies this
      ensures Inv(View()) && Run(old(View()), steps) == View()
      ensures cleared <==> old(lock).None? && old(marker).Names? && old(marker).session in receipts && receipts[old(marker).session]
      ensures marker == (if cleared then Absent else old(marker)) && lock == old(lock) && receipts == old(receipts)
    {
      hide Inv, Used, Run;
      ghost var s := View();
      steps := [];
      NoSteps(s);
      if lock.Some? { return false, steps; }
      lock := Some(pid);
      procs := procs[pid := Recovering];
      Advance(s, steps, RecoverLock(pid));
      steps := steps + [RecoverLock(pid)];
      cleared := marker.Names? && marker.session in receipts && receipts[marker.session];
      Advance(s, steps, Recover(pid));
      steps := steps + [Recover(pid)];
      if cleared { marker := Absent; }
      lock := None;
      procs := procs - {pid};
    }
  }

  lemma OwnerHolds(s: State, pid: Pid)
    requires Inv(s) && pid in s.procs && s.procs[pid].Connected?
    ensures s.lock == Some(pid) && s.marker == Names(s.procs[pid].session)
  {
  }

  lemma {:induction false} NoSteps(s: State)
    ensures Run(s, []) == s
  {
  }

  lemma {:induction false} Advance(s: State, steps: seq<Step>, step: Step)
    ensures Run(s, steps + [step]) == Perform(Run(s, steps), step)
    ensures Inv(Run(s, steps)) ==> Inv(Perform(Run(s, steps), step))
  {
    hide Perform, Inv;
    if Inv(Run(s, steps)) { StepKeeps(Run(s, steps), step); }
  }
}
