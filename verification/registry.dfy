/**
 The job registry: admission, the maintenance fence, cancellation, the two pause modes, late process
 attachment, disconnects and shutdown.

 Each method of `ClientJobRegistry` runs under one lock, so it is one atomic step. The functions on
 `State` say what each step computes; the class below updates its fields in place and is proved to
 take exactly those steps. `RegistrySafety` proves what every interleaving of the steps keeps.
 */
module Registry {
  import opened Wrappers
  import opened Processes

  datatype Key = Key(sid: string, jobType: string)

  datatype Status = Running | Cancelling | Completed | Failed | Cancelled

  datatype PauseMode = ByProcess | AtCheckpoint

  datatype Job = Job(
    status: Status, cancelRequested: bool,
    pauseRequested: bool, paused: bool, pauseMode: Option<PauseMode>,
    sourceJob: Option<nat>, disconnected: bool)

  datatype Rejection = ShuttingDown | UnderMaintenance | AlreadyRunning | NoCapacity

  datatype State = State(
    jobs: map<Key, Job>,
    processes: map<Key, Pid>,
    stopped: set<Key>,
    rejections: map<Key, Rejection>,
    shuttingDown: bool,
    maintenance: Option<nat>,
    limit: Option<nat>,
    posix: bool,
    os: Table)

  /** The stable reason codes of `pause` and `resume`. */
  datatype Code =
    | NoJob | StaleJob | NotRunning | AlreadyPaused | NotPaused | Unsupported | IsPaused | IsPausing | IsResumed

  predicate Active(j: Job) {
    j.status.Running? || j.status.Cancelling?
  }

  function ActiveKeys(jobs: map<Key, Job>): set<Key> {
    set k | k in jobs && Active(jobs[k])
  }

  /** The record `complete` starts from when there is none. */
  function EmptyJob(status: Status): Job {
    Job(status, false, false, false, None, None, false)
  }

  function NewJob(jobType: string, newId: nat): Job {
    Job(Running, false, false, false, None,
        if jobType == "scan" || jobType == "report" then Some(newId) else None, false)
  }

  predicate Matches(j: Job, expected: Option<nat>) {
    expected.Some? ==> j.sourceJob == expected
  }

  // ---------------------------------------------------------------- the steps

  function AcquireMaintenance(s: State, token: Option<nat>, newId: nat): (State, Option<nat>) {
    if s.shuttingDown || s.processes != map[] || ActiveKeys(s.jobs) != {} then (s, None)
    else if s.maintenance.Some? then (s, if token == s.maintenance then s.maintenance else None)
    else (s.(maintenance := Some(newId)), Some(newId))
  }

  function ReleaseMaintenance(s: State, token: Option<nat>): (State, bool) {
    if token.None? || s.maintenance != token then (s, false) else (s.(maintenance := None), true)
  }

  /** Why `start` would refuse, in the order it looks. */
  function StartRefusal(s: State, k: Key): Option<Rejection> {
    if s.shuttingDown then Some(ShuttingDown)
    else if s.maintenance.Some? then Some(UnderMaintenance)
    else if k in s.jobs && Active(s.jobs[k]) then Some(AlreadyRunning)
    else if s.limit.Some? && |ActiveKeys(s.jobs)| >= s.limit.value then Some(NoCapacity)
    else None
  }

  function Start(s: State, k: Key, newId: nat): (State, bool) {
    match StartRefusal(s, k)
    case Some(reason) => (s.(rejections := s.rejections[k := reason]), false)
    case None =>
      (s.(jobs := s.jobs[k := NewJob(k.jobType, newId)], rejections := s.rejections - {k},
          stopped := s.stopped - {k}), true)
  }

  predicate InPause(j: Job) {
    j.paused || j.pauseRequested
  }

  function Unpaused(j: Job): Job {
    if InPause(j) then j.(paused := false, pauseRequested := false, pauseMode := None) else j
  }

  /** `_leave_pause_locked`: wake the process if this registry stopped it. */
  function Wake(s: State, k: Key, j: Job): State {
    if !InPause(j) then s
    else s.(
      os := if k in s.processes && k in s.stopped then Send(s.os, s.processes[k], Cont) else s.os,
      stopped := s.stopped - {k})
  }

  function Complete(s: State, k: Key, status: Status): State {
    var j := if k in s.jobs then s.jobs[k] else EmptyJob(status);
    var woken := if k in s.jobs then Wake(s, k, j) else s;
    woken.(jobs := s.jobs[k := Unpaused(j).(status := status)])
  }

  function Cancel(s: State, k: Key, expected: Option<nat>): (State, bool) {
    if k !in s.jobs || !s.jobs[k].status.Running? || !Matches(s.jobs[k], expected) then (s, false)
    else
      var woken := Wake(s, k, s.jobs[k]);
      (woken.(
         jobs := s.jobs[k := Unpaused(s.jobs[k]).(cancelRequested := true, status := Cancelling)],
         os := if k in s.processes then Terminate(woken.os, s.processes[k], Term) else woken.os), true)
  }

  predicate Stoppable(s: State, k: Key) {
    s.posix && k in s.processes && s.processes[k] in s.os && s.os[s.processes[k]].pausable
    && Deliverable(s.os, s.processes[k])
  }

  function Pause(s: State, k: Key, expected: Option<nat>): (State, Code) {
    if k !in s.jobs then (s, NoJob)
    else if !Matches(s.jobs[k], expected) then (s, StaleJob)
    else if !s.jobs[k].status.Running? || s.jobs[k].cancelRequested then (s, NotRunning)
    else if InPause(s.jobs[k]) then (s, AlreadyPaused)
    else if !s.posix then (s, Unsupported)
    else if Stoppable(s, k) then
      (s.(jobs := s.jobs[k := s.jobs[k].(pauseRequested := true, paused := true, pauseMode := Some(ByProcess))],
          stopped := s.stopped + {k}, os := Send(s.os, s.processes[k], Stop)), IsPaused)
    else
      (s.(jobs := s.jobs[k := s.jobs[k].(pauseRequested := true, pauseMode := Some(AtCheckpoint))]), IsPausing)
  }

  function Resume(s: State, k: Key, expected: Option<nat>): (State, Code) {
    if k !in s.jobs then (s, NoJob)
    else if !Matches(s.jobs[k], expected) then (s, StaleJob)
    else if !s.jobs[k].status.Running? || s.jobs[k].cancelRequested then (s, NotRunning)
    else if !InPause(s.jobs[k]) then (s, NotPaused)
    else (Wake(s, k, s.jobs[k]).(jobs := s.jobs[k := Unpaused(s.jobs[k])]), IsResumed)
  }

  /** Whether a workflow at a checkpoint is held there. */
  predicate Held(s: State, k: Key) {
    && k in s.jobs && s.jobs[k].status.Running? && !s.jobs[k].cancelRequested
    && !s.shuttingDown && InPause(s.jobs[k])
  }

  /** The first locked block of `wait_if_paused`: a pending pause takes effect here. */
  function Checkpoint(s: State, k: Key): (State, bool) {
    if Held(s, k) && !s.jobs[k].paused then
      (s.(jobs := s.jobs[k := s.jobs[k].(paused := true, pauseMode := Some(AtCheckpoint))]), true)
    else (s, false)
  }

  function Attach(s: State, k: Key, pid: Pid): (State, bool) {
    if s.shuttingDown then (s, false) else
    var s1 := s.(processes := s.processes[k := pid]);
    if k in s.jobs && s.jobs[k].pauseRequested && s.jobs[k].status.Running? && Stoppable(s1, k) then
      (s1.(jobs := s.jobs[k := s.jobs[k].(paused := true, pauseMode := Some(ByProcess))],
           stopped := s.stopped + {k}, os := Send(s.os, pid, Stop)), true)
    else (s1, true)
  }

  function ClearProcess(s: State, k: Key): State {
    s.(processes := s.processes - {k}, stopped := s.stopped - {k})
  }

  /** The locked part of `terminate_all`; the processes it returns are signalled outside the lock. */
  function BeginShutdown(s: State): (State, map<Key, Pid>) {
    (s.(shuttingDown := true, processes := map[], stopped := {}), s.processes)
  }

  function MarkDisconnected(s: State, sid: string): State {
    s.(rejections := map k | k in s.rejections && k.sid != sid :: s.rejections[k],
       jobs := map k | k in s.jobs && (k.sid == sid ==> Active(s.jobs[k])) ::
         if k.sid == sid then s.jobs[k].(disconnected := true) else s.jobs[k])
  }

  function ClearIfDisconnected(s: State, k: Key): State {
    ClearProcess(s, k).(jobs := if k in s.jobs && s.jobs[k].disconnected then s.jobs - {k} else s.jobs)
  }

  // ---------------------------------------------------------------- the program's own form

  class OperatingSystem {
    var table: Table

    constructor (table: Table)
      ensures this.table == table
    {
      this.table := table;
    }

    method SendSignal(pid: Pid, sig: Signal) returns (delivered: bool)
      modifies this
      ensures table == Send(old(table), pid, sig) && delivered == Deliverable(old(table), pid)
    {
      delivered := Deliverable(table, pid);
      if delivered && table[pid].life.Live? {
        var p := table[pid];
        match sig {
          case Stop => table := table[pid := p.(stopped := true)];
          case Cont => table := table[pid := p.(stopped := false)];
          case Term => table := table[pid := p.(told := p.told || !p.stopped)];
          case Kill => table := table[pid := p.(life := Zombie, stopped := false)];
        }
      }
    }

    method SignalScanProcess(pid: Pid, sig: Signal)
      requires sig.Term? || sig.Kill?
      modifies this
      ensures table == Terminate(old(table), pid, sig)
    {
      var _ := SendSignal(pid, Cont);
      var _ := SendSignal(pid, sig);
    }
  }

  class ClientJobRegistry {
    const os: OperatingSystem
    const maxActiveJobs: Option<nat>
    const posix: bool
    var jobs: map<Key, Job>
    var processes: map<Key, Pid>
    var stoppedProcesses: set<Key>
    var startRejections: map<Key, Rejection>
    var shuttingDown: bool
    var maintenanceToken: Option<nat>

    ghost function Abstract(): State
      reads this, os
    {
      State(jobs, processes, stoppedProcesses, startRejections, shuttingDown, maintenanceToken, maxActiveJobs, posix, os.table)
    }

    constructor (os: OperatingSystem, maxActiveJobs: Option<int>, posix: bool)
      ensures this.os == os
      ensures Abstract() == State(map[], map[], {}, map[], false, None,
        if maxActiveJobs.Some? then Some(Max(1, maxActiveJobs.value)) else None, posix, os.table)
    {
      this.os := os;
      this.posix := posix;
      this.maxActiveJobs := if maxActiveJobs.Some? then Some(Max(1, maxActiveJobs.value)) else None;
      jobs, processes, stoppedProcesses, startRejections := map[], map[], {}, map[];
      shuttingDown, maintenanceToken := false, None;
    }

    method TryMaintenance(token: Option<nat>, newId: nat) returns (r: Option<nat>)
      modifies this`maintenanceToken
      ensures (Abstract(), r) == AcquireMaintenance(old(Abstract()), token, newId)
    {
      if shuttingDown || processes != map[] || ActiveKeys(jobs) != {} {
        return None;
      }
      if maintenanceToken.Some? {
        return if token.Some? && token.value == maintenanceToken.value then maintenanceToken else None;
      }
      maintenanceToken := Some(newId);
      return maintenanceToken;
    }

    method EndMaintenance(token: Option<nat>) returns (released: bool)
      modifies this`maintenanceToken
      ensures (Abstract(), released) == ReleaseMaintenance(old(Abstract()), token)
    {
      if token.None? || maintenanceToken.None? {
        return false;
      }
      if token.value != maintenanceToken.value {
        return false;
      }
      maintenanceToken := None;
      return true;
    }

    method StartJob(k: Key, newId: nat) returns (admitted: bool)
      modifies this
      ensures (Abstract(), admitted) == Start(old(Abstract()), k, newId)
    {
      if shuttingDown {
        startRejections := startRejections[k := ShuttingDown];
        return false;
      }
      if maintenanceToken.Some? {
        startRejections := startRejections[k := UnderMaintenance];
        return false;
      }
      if k in jobs && Active(jobs[k]) {
        startRejections := startRejections[k := AlreadyRunning];
        return false;
      }
      if maxActiveJobs.Some? && |ActiveKeys(jobs)| >= maxActiveJobs.value {
        startRejections := startRejections[k := NoCapacity];
        return false;
      }
      startRejections := startRejections - {k};
      jobs := jobs[k := NewJob(k.jobType, newId)];
      stoppedProcesses := stoppedProcesses - {k};
      return true;
    }

    /** `_leave_pause_locked`, on the record `current` of `k`. */
    method LeavePause(k: Key, current: Job) returns (j: Job)
      modifies this`stoppedProcesses, os
      ensures j == Unpaused(current) && Abstract() == Wake(old(Abstract()), k, current)
    {
      j := current;
      if !(j.paused || j.pauseRequested) {
        return;
      }
      if k in processes && k in stoppedProcesses {
        var _ := os.SendSignal(processes[k], Cont);
      }
      stoppedProcesses := stoppedProcesses - {k};
      j := j.(paused := false, pauseRequested := false, pauseMode := None);
    }

    method CompleteJob(k: Key, status: Status)
      modifies this, os
      ensures Abstract() == Complete(old(Abstract()), k, status)
    {
      if k in jobs {
        var current := LeavePause(k, jobs[k]);
        jobs := jobs[k := current.(status := status)];
      } else {
        jobs := jobs[k := EmptyJob(status)];
      }
    }

    method CancelJob(k: Key, expected: Option<nat>) returns (cancelled: bool)
      modifies this, os
      ensures (Abstract(), cancelled) == Cancel(old(Abstract()), k, expected)
    {
      if k !in jobs || !jobs[k].status.Running? {
        return false;
      }
      if expected.Some? && jobs[k].sourceJob != expected {
        return false;
      }
      var current := LeavePause(k, jobs[k]);
      jobs := jobs[k := current.(cancelRequested := true, status := Cancelling)];
      if k in processes {
        os.SignalScanProcess(processes[k], Term);
      }
      return true;
    }

    method PauseJob(k: Key, expected: Option<nat>) returns (code: Code)
      modifies this, os
      ensures (Abstract(), code) == Pause(old(Abstract()), k, expected)
    {
      if k !in jobs {
        return NoJob;
      }
      var job := jobs[k];
      if expected.Some? && job.sourceJob != expected {
        return StaleJob;
      }
      if !job.status.Running? || job.cancelRequested {
        return NotRunning;
      }
      if job.paused || job.pauseRequested {
        return AlreadyPaused;
      }
      if !posix {
        return Unsupported;
      }
      job := job.(pauseRequested := true);
      var stopped := false;
      if posix && k in processes && processes[k] in os.table && os.table[processes[k]].pausable {
        stopped := os.SendSignal(processes[k], Stop);
      }
      if stopped {
        stoppedProcesses := stoppedProcesses + {k};
        job := job.(paused := true, pauseMode := Some(ByProcess));
      } else {
        job := job.(pauseMode := Some(AtCheckpoint));
      }
      jobs := jobs[k := job];
      return if job.paused then IsPaused else IsPausing;
    }

    method ResumeJob(k: Key, expected: Option<nat>) returns (code: Code)
      modifies this, os
      ensures (Abstract(), code) == Resume(old(Abstract()), k, expected)
    {
      if k !in jobs {
        return NoJob;
      }
      if expected.Some? && jobs[k].sourceJob != expected {
        return StaleJob;
      }
      if !jobs[k].status.Running? || jobs[k].cancelRequested {
        return NotRunning;
      }
      if !(jobs[k].paused || jobs[k].pauseRequested) {
        return NotPaused;
      }
      var job := LeavePause(k, jobs[k]);
      jobs := jobs[k := job];
      return IsResumed;
    }

    method EnterCheckpoint(k: Key) returns (announce: bool)
      modifies this`jobs
      ensures (Abstract(), announce) == Checkpoint(old(Abstract()), k)
    {
      var wait := k in jobs && jobs[k].status.Running? && !jobs[k].cancelRequested && !shuttingDown
        && (jobs[k].paused || jobs[k].pauseRequested);
      announce := wait && !jobs[k].paused;
      if announce {
        jobs := jobs[k := jobs[k].(paused := true, pauseMode := Some(AtCheckpoint))];
      }
    }

    method AttachProcess(k: Key, pid: Pid) returns (attached: bool)
      modifies this, os
      ensures (Abstract(), attached) == Attach(old(Abstract()), k, pid)
    {
      if shuttingDown {
        return false;
      }
      processes := processes[k := pid];
      if k in jobs && jobs[k].pauseRequested && jobs[k].status.Running? && posix && pid in os.table && os.table[pid].pausable {
        var delivered := os.SendSignal(pid, Stop);
        if delivered {
          stoppedProcesses := stoppedProcesses + {k};
          jobs := jobs[k := jobs[k].(paused := true, pauseMode := Some(ByProcess))];
        }
      }
      return true;
    }

    method ForgetProcess(k: Key)
      modifies this`processes, this`stoppedProcesses
      ensures Abstract() == ClearProcess(old(Abstract()), k)
    {
      processes := processes - {k};
      stoppedProcesses := stoppedProcesses - {k};
    }

    method ShutDown() returns (victims: map<Key, Pid>)
      modifies this
      ensures (Abstract(), victims) == BeginShutdown(old(Abstract()))
    {
      shuttingDown := true;
      victims := processes;
      processes := map[];
      stoppedProcesses := {};
    }

    method ForgetRejections(sid: string)
      modifies this`startRejections
      ensures startRejections == map k | k in old(startRejections) && k.sid != sid :: old(startRejections)[k]
    {
      var refused := startRejections.Keys;
      while refused != {}
        invariant refused <= old(startRejections).Keys
        invariant startRejections ==
          map k | k in old(startRejections) && (k in refused || k.sid != sid) :: old(startRejections)[k]
        decreases refused
      {
        var k :| k in refused;
        if k.sid == sid {
          startRejections := startRejections - {k};
        }
        refused := refused - {k};
      }
    }

    method Disconnect(sid: string)
      modifies this`startRejections, this`jobs
      ensures Abstract() == MarkDisconnected(old(Abstract()), sid)
    {
      ForgetRejections(sid);
      MarkJobs(sid);
    }

    /** The jobs of a browser that left: finished ones are forgotten, the others marked. */
    method MarkJobs(sid: string)
      modifies this`jobs
      ensures jobs == MarkDisconnected(old(Abstract()), sid).jobs
    {
      ghost var before := jobs;
      var keys := jobs.Keys;
      while keys != {}
        invariant keys <= before.Keys
        invariant forall k :: k in jobs <==> k in before && (k in keys || k.sid != sid || Active(before[k]))
        invariant forall k | k in jobs ::
          jobs[k] == if k in keys || k.sid != sid then before[k] else before[k].(disconnected := true)
        decreases keys
      {
        var k :| k in keys;
        if k.sid == sid {
          if Active(jobs[k]) {
            jobs := jobs[k := jobs[k].(disconnected := true)];
          } else {
            jobs := jobs - {k};
          }
        }
        keys := keys - {k};
      }
    }

    method ForgetDisconnected(k: Key)
      modifies this
      ensures Abstract() == ClearIfDisconnected(old(Abstract()), k)
    {
      if k in jobs && jobs[k].disconnected {
        jobs := jobs - {k};
      }
      processes := processes - {k};
      stoppedProcesses := stoppedProcesses - {k};
    }
  }
}
