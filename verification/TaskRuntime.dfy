/**
 One task's process state machine (src/runtime/task.rs). What the operating
 system answers (has the child exited, did the signal go through, did the spawn
 succeed) is an argument of each operation.
 */
module TaskRuntimes {
  import opened Prelude

  datatype Status = Idle | Running | Paused | Exited | Failed

  predicate Active(s: Status) {
    s.Running? || s.Paused?
  }

  /** How a child ended. */
  datatype Exit = Exit(success: bool, code: Option<int>, text: string)

  datatype Wait = Alive | WaitFailed | Ended(exit: Exit)

  datatype Spawn = NoDirectory | SpawnFailed | Spawned(pid: nat, at: nat)

  datatype Reap = Reaped(exit: Exit) | ReapFailed

  datatype Runtime = Runtime(
    status: Status, child: bool, pid: Option<nat>, generation: nat, startedAt: nat, history: nat,
    lastExit: Option<string>, exitCode: Option<int>)

  const FRESH := Runtime(Idle, false, None, 0, 0, 1, None, None)

  const U64: nat := 0x1_0000_0000_0000_0000

  function Polled(r: Runtime, w: Wait): Runtime {
    if r.child && w.Ended? then
      r.(status := if w.exit.success then Exited else Failed, pid := None, child := false,
         lastExit := Some(w.exit.text), exitCode := w.exit.code)
    else r
  }

  predicate PollOk(r: Runtime, w: Wait) {
    r.child ==> !w.WaitFailed?
  }

  predicate StartOk(r: Runtime, w: Wait, s: Spawn) {
    PollOk(r, w) && !Polled(r, w).child && s.Spawned?
  }

  function Started(r: Runtime, w: Wait, s: Spawn): Runtime {
    if StartOk(r, w, s) then
      Polled(r, w).(generation := r.generation + 1, startedAt := s.at, child := true, pid := Some(s.pid),
                    status := Running, lastExit := None, exitCode := None)
    else Polled(r, w)
  }

  predicate SignalOk(r: Runtime, w: Wait, from: Status, signal: bool) {
    PollOk(r, w) && Polled(r, w).status == from && Polled(r, w).child && signal
  }

  function Signalled(r: Runtime, w: Wait, from: Status, to: Status, signal: bool): Runtime {
    if SignalOk(r, w, from, signal) then Polled(r, w).(status := to) else Polled(r, w)
  }

  predicate StopOk(r: Runtime, w: Wait, reap: Reap) {
    PollOk(r, w) && (Polled(r, w).child ==> reap.Reaped?)
  }

  /** The child is taken before it is waited for: when the wait fails, the runtime
      has no child but keeps its status. */
  function Stopped(r: Runtime, w: Wait, reap: Reap): Runtime {
    var p := Polled(r, w);
    if !PollOk(r, w) then p
    else if !p.child then p.(status := Idle, pid := None)
    else if reap.ReapFailed? then p.(child := false)
    else p.(child := false, pid := None, status := Idle, lastExit := Some(reap.exit.text), exitCode := reap.exit.code)
  }

  function NextHistory(h: nat): nat {
    Max((h + 1) % U64, 1)
  }

  function HistoryCleared(r: Runtime): Runtime {
    r.(history := NextHistory(r.history))
  }

  function Restarted(r: Runtime, w: Wait, reap: Reap, clear: bool, s: Spawn): Runtime {
    var p := Stopped(r, w, reap);
    if !StopOk(r, w, reap) then p
    else Started(if clear then HistoryCleared(p) else p, Alive, s)
  }

  predicate RestartOk(r: Runtime, w: Wait, reap: Reap, s: Spawn) {
    StopOk(r, w, reap) && s.Spawned?
  }

  class TaskRuntime {
    var status: Status
    var child: bool
    var pid: Option<nat>
    var startGeneration: nat
    var startedAtMs: nat
    var historyGeneration: nat
    var lastExit: Option<string>
    var exitCode: Option<int>

    function State(): Runtime
      reads this
    {
      Runtime(status, child, pid, startGeneration, startedAtMs, historyGeneration, lastExit, exitCode)
    }

    constructor ()
      ensures State() == FRESH
    {
      status, child, pid := Idle, false, None;
      startGeneration, startedAtMs, historyGeneration := 0, 0, 1;
      lastExit, exitCode := None, None;
    }

    method Poll(w: Wait) returns (ok: bool)
      modifies this
      ensures State() == Polled(old(State()), w) && ok == PollOk(old(State()), w)
      ensures ok <==> !(old(child) && w.WaitFailed?)
      ensures if old(child) && w.Ended? then
                && !child && pid == None && lastExit == Some(w.exit.text) && exitCode == w.exit.code
                && status == (if w.exit.success then Exited else Failed)
                && (startGeneration, startedAtMs, historyGeneration)
                     == old((startGeneration, startedAtMs, historyGeneration))
              else State() == old(State())
    {
      if !child {
        return true;
      }
      match w {
        case WaitFailed => return false;
        case Alive => return true;
        case Ended(exit) =>
          status := if exit.success then Exited else Failed;
          pid := None;
          lastExit, exitCode := Some(exit.text), exit.code;
          child := false;
          return true;
      }
    }

    method Start(w: Wait, s: Spawn) returns (ok: bool)
      modifies this
      ensures State() == Started(old(State()), w, s) && ok == StartOk(old(State()), w, s)
      ensures ok <==> s.Spawned? && (old(child) ==> w.Ended?)
      ensures ok ==>
                State() == Runtime(Running, true, Some(s.pid), old(startGeneration) + 1, s.at,
                                   old(historyGeneration), None, None)
      ensures !ok ==> startGeneration == old(startGeneration) && (child ==> old(child))
    {
      ok := Poll(w);
      if !ok {
        return false;
      }
      if child {
        return false;
      }
      match s {
        case NoDirectory => return false;
        case SpawnFailed => return false;
        case Spawned(newPid, at) =>
          startGeneration := startGeneration + 1;
          startedAtMs := at;
          child := true;
          pid := Some(newPid);
          status := Running;
          lastExit, exitCode := None, None;
          return true;
      }
    }

    method Pause(w: Wait, signal: bool) returns (ok: bool)
      modifies this
      ensures State() == Signalled(old(State()), w, Running, Paused, signal)
      ensures ok == SignalOk(old(State()), w, Running, signal)
      ensures ok <==> old(status).Running? && old(child) && w.Alive? && signal
      ensures ok ==> State() == old(State()).(status := Paused)
      ensures !ok ==> status.Paused? ==> old(status).Paused?
    {
      ok := Poll(w);
      if !ok || status != Running || !child || !signal {
        return false;
      }
      status := Paused;
    }

    method Resume(w: Wait, signal: bool) returns (ok: bool)
      modifies this
      ensures State() == Signalled(old(State()), w, Paused, Running, signal)
      ensures ok == SignalOk(old(State()), w, Paused, signal)
      ensures ok <==> old(status).Paused? && old(child) && w.Alive? && signal
      ensures ok ==> State() == old(State()).(status := Running)
      ensures !ok ==> status.Running? ==> old(status).Running?
    {
      ok := Poll(w);
      if !ok || status != Paused || !child || !signal {
        return false;
      }
      status := Running;
    }

    method Stop(w: Wait, reap: Reap) returns (ok: bool)
      modifies this
      ensures State() == Stopped(old(State()), w, reap) && ok == StopOk(old(State()), w, reap)
      ensures ok <==> (old(child) ==> w.Ended? || (w.Alive? && reap.Reaped?))
      ensures ok ==> status.Idle? && !child && pid.None?
      ensures ok && old(child) ==>
                var exit := if w.Ended? then w.exit else reap.exit;
                lastExit == Some(exit.text) && exitCode == exit.code
      ensures !old(child) || !ok ==> lastExit == old(lastExit) && exitCode == old(exitCode)
      ensures !ok ==> status == old(status) && pid == old(pid) && child == w.WaitFailed?
      ensures (startGeneration, startedAtMs, historyGeneration)
           == old((startGeneration, startedAtMs, historyGeneration))
    {
      ok := Poll(w);
      if !ok {
        return false;
      }
      if !child {
        status := Idle;
        pid := None;
        return true;
      }
      child := false;
      match reap {
        case ReapFailed => return false;
        case Reaped(exit) =>
          pid := None;
          status := Idle;
          lastExit, exitCode := Some(exit.text), exit.code;
          return true;
      }
    }

    method ClearHistory()
      modifies this
      ensures State() == HistoryCleared(old(State()))
      ensures historyGeneration >= 1 && historyGeneration != old(historyGeneration)
      ensures old(historyGeneration) < 0xFFFF_FFFF_FFFF_FFFF ==> historyGeneration == old(historyGeneration) + 1
      ensures old(historyGeneration) == 0xFFFF_FFFF_FFFF_FFFF ==> historyGeneration == 1
    {
      historyGeneration := NextHistory(historyGeneration);
    }

    method Restart(w: Wait, reap: Reap, clearLogsOnRestart: bool, s: Spawn) returns (ok: bool)
      modifies this
      ensures State() == Restarted(old(State()), w, reap, clearLogsOnRestart, s)
      ensures ok == RestartOk(old(State()), w, reap, s)
      ensures ok <==> s.Spawned? && (old(child) ==> w.Ended? || (w.Alive? && reap.Reaped?))
      ensures ok ==> status.Running? && child && pid == Some(s.pid) && startGeneration == old(startGeneration) + 1
      ensures !ok ==> startGeneration == old(startGeneration)
      ensures historyGeneration != old(historyGeneration) <==>
                clearLogsOnRestart && (old(child) ==> w.Ended? || (w.Alive? && reap.Reaped?))
    {
      ok := Stop(w, reap);
      if !ok {
        return false;
      }
      if clearLogsOnRestart {
        ClearHistory();
      }
      ok := Start(Alive, s);
    }
  }

  // ---- Every operation, and what holds across all of them ------------------------

  datatype Op =
    | Poll(w: Wait)
    | Start(w: Wait, s: Spawn)
    | Pause(w: Wait, signal: bool)
    | Resume(w: Wait, signal: bool)
    | Stop(w: Wait, reap: Reap)
    | Restart(w: Wait, reap: Reap, clear: bool, s: Spawn)
    | ClearHistory

  function Applied(r: Runtime, op: Op): Runtime {
    match op
    case Poll(w) => Polled(r, w)
    case Start(w, s) => Started(r, w, s)
    case Pause(w, signal) => Signalled(r, w, Running, Paused, signal)
    case Resume(w, signal) => Signalled(r, w, Paused, Running, signal)
    case Stop(w, reap) => Stopped(r, w, reap)
    case Restart(w, reap, clear, s) => Restarted(r, w, reap, clear, s)
    case ClearHistory => HistoryCleared(r)
  }

  /** A child means an active status (not conversely), and generation 0 never ran. */
  predicate Consistent(r: Runtime) {
    && (r.child ==> Active(r.status) && r.pid.Some? && r.generation > 0)
    && (r.generation == 0 ==> r.status.Idle?)
  }

  /** `b` can come after `a`: generations grow, and one that has ended stays ended. */
  predicate CanFollow(a: Runtime, b: Runtime) {
    && a.generation <= b.generation
    && (a.generation == b.generation ==>
          b.startedAt == a.startedAt && (!Active(a.status) ==> !Active(b.status)))
  }

  lemma OperationFollows(r: Runtime, op: Op)
    requires Consistent(r)
    ensures Consistent(Applied(r, op)) && CanFollow(r, Applied(r, op))
    ensures Applied(r, op).generation <= r.generation + 1
    ensures Applied(r, op).generation > r.generation ==> Applied(r, op).status.Running? && Applied(r, op).child
  {
  }

  function AppliedAll(r: Runtime, ops: seq<Op>): Runtime
    decreases |ops|
  {
    if ops == [] then r else AppliedAll(Applied(r, ops[0]), ops[1..])
  }

  /** No sequence of operations brings a finished generation back to life. */
  lemma {:induction false} OperationsFollow(r: Runtime, ops: seq<Op>)
    requires Consistent(r)
    ensures Consistent(AppliedAll(r, ops)) && CanFollow(r, AppliedAll(r, ops))
    decreases |ops|
  {
    if ops == [] {
    } else {
      OperationFollows(r, ops[0]);
      OperationsFollow(Applied(r, ops[0]), ops[1..]);
    }
  }
}
