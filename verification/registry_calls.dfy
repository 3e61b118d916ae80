/**
 What each call of the registry does, in terms its caller can check: when it is accepted, what becomes of
 the job and of its process, and that nothing else changes.
 */
module RegistryCalls {
  import opened Wrappers
  import opened Processes
  import opened Registry
  import opened RegistrySafety

  /** No process but `pid` differs. */
  ghost predicate OnlyProcess(before: Table, after: Table, pid: Pid) {
    && (forall p :: p in before <==> p in after)
    && forall p | p in before && p != pid :: after[p] == before[p]
  }

  /** Nothing but the job of `k`, its stopped mark and its own process differ. */
  ghost predicate Confined(s: State, t: State, k: Key) {
    && Touches(s, t, k) && t.posix == s.posix && t.rejections == s.rejections
    && (if k in s.processes then OnlyProcess(s.os, t.os, s.processes[k]) else t.os == s.os)
  }

  /** A running job that nobody has cancelled, and that is the run the caller means. */
  predicate Addressed(s: State, k: Key, expected: Option<nat>) {
    && k in s.jobs && s.jobs[k].status == Running && !s.jobs[k].cancelRequested
    && (expected.None? || s.jobs[k].sourceJob == expected)
  }

  predicate Reachable(s: State, k: Key) {
    && k in s.processes && s.processes[k] in s.os
    && s.os[s.processes[k]].pausable && s.os[s.processes[k]].permitted
  }

  lemma SendIsConfined(os: Table, pid: Pid, sig: Signal)
    ensures OnlyProcess(os, Send(os, pid, sig), pid) && OnlyProcess(os, Terminate(os, pid, sig), pid)
  {
  }

  lemma WakeIsConfined(s: State, k: Key, j: Job)
    ensures
      var t := Wake(s, k, j);
      && t.rejections == s.rejections && t.processes == s.processes && t.posix == s.posix
      && (if k in s.processes then OnlyProcess(s.os, t.os, s.processes[k]) else t.os == s.os)
  {
    if k in s.processes {
      SendIsConfined(s.os, s.processes[k], Cont);
    }
    hide OnlyProcess, Send;
    if k in s.processes {
      NothingIsConfined(s.os, s.processes[k]);
    }
  }

  lemma NothingIsConfined(os: Table, pid: Pid)
    ensures OnlyProcess(os, os, pid)
  {
  }

  lemma BothAreConfined(a: Table, b: Table, c: Table, pid: Pid)
    requires OnlyProcess(a, b, pid) && OnlyProcess(b, c, pid)
    ensures OnlyProcess(a, c, pid)
  {
  }

  lemma CancelIsConfined(s: State, k: Key, expected: Option<nat>)
    ensures Confined(s, Cancel(s, k, expected).0, k)
  {
    hide Touches, OnlyProcess, Send, Terminate, Wake, Unpaused, Matches;
    CancelTouches(s, k, expected);
    if k in s.processes {
      NothingIsConfined(s.os, s.processes[k]);
      if k in s.jobs {
        var woken := Wake(s, k, s.jobs[k]);
        WakeIsConfined(s, k, s.jobs[k]);
        SendIsConfined(woken.os, s.processes[k], Term);
        BothAreConfined(s.os, woken.os, Terminate(woken.os, s.processes[k], Term), s.processes[k]);
      }
    } else if k in s.jobs {
      WakeIsConfined(s, k, s.jobs[k]);
    }
  }

  lemma EndingIsConfined(s: State, k: Key, status: Status, expected: Option<nat>)
    ensures Confined(s, Complete(s, k, status), k) && Confined(s, Resume(s, k, expected).0, k)
  {
    hide Touches, OnlyProcess, Send, Wake, Unpaused, Matches, InPause;
    CompleteTouches(s, k, status);
    ResumeTouches(s, k, expected);
    if k in s.processes {
      NothingIsConfined(s.os, s.processes[k]);
    }
    if k in s.jobs {
      WakeIsConfined(s, k, s.jobs[k]);
    }
  }

  lemma PauseIsConfined(s: State, k: Key, expected: Option<nat>)
    ensures Confined(s, Pause(s, k, expected).0, k) && Confined(s, Checkpoint(s, k).0, k)
  {
    hide Touches, OnlyProcess, Send, Matches, InPause, Held;
    PauseTouches(s, k, expected);
    CheckpointTouches(s, k);
    if k in s.processes {
      NothingIsConfined(s.os, s.processes[k]);
      SendIsConfined(s.os, s.processes[k], Stop);
    }
  }

  /** A call about one job changes no other job, tracks no other process, and signals none but the job's own. */
  lemma CallsAreConfined(w: World, e: Event)
    requires e.TryPause? || e.TryResume? || e.TryCancel? || e.DoComplete? || e.AtCheck?
    ensures Confined(w.s, Apply(w, e).s, e.k) && Apply(w, e).draining == w.draining
  {
    hide Confined, Pause, Resume, Cancel, Complete, Checkpoint;
    match e {
      case TryPause(k, expected) => PauseIsConfined(w.s, k, expected);
      case AtCheck(k) => PauseIsConfined(w.s, k, None);
      case TryResume(k, expected) => EndingIsConfined(w.s, k, Completed, expected);
      case DoComplete(k, status) => EndingIsConfined(w.s, k, status, None);
      case TryCancel(k, expected) => CancelIsConfined(w.s, k, expected);
    }
  }

  // ---------------------------------------------------------------- pause and resume

  /**
   A pause is accepted for a running, uncancelled job that is in no pause yet, under a system that can
   suspend. It suspends the process, if there is one that this user can suspend; otherwise it leaves the
   processes alone and waits for the next checkpoint.
   */
  lemma PauseMeans(s: State, k: Key, expected: Option<nat>)
    ensures
      var (t, code) := Pause(s, k, expected);
      && (code == IsPaused || code == IsPausing <==>
            Addressed(s, k, expected) && !s.jobs[k].paused && !s.jobs[k].pauseRequested && s.posix)
      && (code == IsPaused ==>
            && Reachable(s, k) && k in t.stopped
            && t.jobs[k] == s.jobs[k].(paused := true, pauseRequested := true, pauseMode := Some(ByProcess))
            && (Alive(s.os, s.processes[k]) ==> Suspended(t.os, s.processes[k])))
      && (code == IsPausing ==>
            && !Reachable(s, k) && t.os == s.os && t.stopped == s.stopped
            && t.jobs[k] == s.jobs[k].(pauseRequested := true, pauseMode := Some(AtCheckpoint)))
      && (code != IsPaused && code != IsPausing ==> t == s)
  {
  }

  /** Why a pause is refused. */
  lemma PauseRefusals(s: State, k: Key, expected: Option<nat>)
    ensures
      var code := Pause(s, k, expected).1;
      && (code == NoJob <==> k !in s.jobs)
      && (code == StaleJob <==> k in s.jobs && expected.Some? && s.jobs[k].sourceJob != expected)
      && (code == NotRunning <==>
            k in s.jobs && (expected.Some? ==> s.jobs[k].sourceJob == expected) && !Addressed(s, k, expected))
      && (code == AlreadyPaused <==> Addressed(s, k, expected) && (s.jobs[k].paused || s.jobs[k].pauseRequested))
      && (code == Unsupported <==>
            Addressed(s, k, expected) && !s.jobs[k].paused && !s.jobs[k].pauseRequested && !s.posix)
  {
  }

  /** A paused workflow is held at its next checkpoint, which then says that the pause is in effect. */
  lemma PausedIsHeld(s: State, k: Key, expected: Option<nat>)
    requires !s.shuttingDown && (Pause(s, k, expected).1 == IsPaused || Pause(s, k, expected).1 == IsPausing)
    ensures
      var (t, code) := Pause(s, k, expected);
      var (u, announce) := Checkpoint(t, k);
      && Held(t, k) && Held(u, k) && u.jobs[k].paused && (announce <==> code == IsPausing)
      && u == t.(jobs := t.jobs[k := u.jobs[k]])
      && (announce ==> u.jobs[k] == t.jobs[k].(paused := true, pauseMode := Some(AtCheckpoint)))
  {
  }

  /** A checkpoint holds nobody else: only a running, uncancelled job that is paused or about to be, before a shutdown. */
  lemma HeldIff(s: State, k: Key)
    ensures Held(s, k) <==>
      && k in s.jobs && s.jobs[k].status == Running && !s.jobs[k].cancelRequested && !s.shuttingDown
      && (s.jobs[k].paused || s.jobs[k].pauseRequested)
    ensures Checkpoint(s, k).1 <==> Held(s, k) && !s.jobs[k].paused
    ensures !Checkpoint(s, k).1 ==> Checkpoint(s, k).0 == s
  {
  }

  /** A resume is accepted exactly for a job in a pause, takes it out of it, and wakes what this registry stopped. */
  lemma ResumeMeans(s: State, k: Key, expected: Option<nat>)
    ensures
      var (t, code) := Resume(s, k, expected);
      && (code == IsResumed <==> Addressed(s, k, expected) && (s.jobs[k].paused || s.jobs[k].pauseRequested))
      && (code == IsResumed ==>
            && t.jobs[k] == s.jobs[k].(paused := false, pauseRequested := false, pauseMode := None)
            && k !in t.stopped && Woken(s, t, k))
      && (code != IsResumed ==> t == s)
      && (code == NoJob <==> k !in s.jobs)
      && (code == StaleJob <==> k in s.jobs && expected.Some? && s.jobs[k].sourceJob != expected)
      && (code == NotPaused <==> Addressed(s, k, expected) && !s.jobs[k].paused && !s.jobs[k].pauseRequested)
  {
  }

  /** The process of `k`, if this registry stopped it and may signal it, runs again; otherwise all are as they were. */
  predicate Woken(s: State, t: State, k: Key) {
    if k in s.processes && k in s.stopped
    then Deliverable(s.os, s.processes[k]) ==> !Suspended(t.os, s.processes[k]) else t.os == s.os
  }

  // ---------------------------------------------------------------- cancel and complete

  /**
   A cancel is accepted exactly for a running job of the run the caller means. The job then counts as
   cancelling and is in no pause, and its process, if alive and within reach, is awake and told to end.
   */
  lemma CancelMeans(s: State, k: Key, expected: Option<nat>)
    ensures
      var (t, accepted) := Cancel(s, k, expected);
      && (accepted <==>
            k in s.jobs && s.jobs[k].status == Running && (expected.None? || s.jobs[k].sourceJob == expected))
      && (accepted ==>
            && t.jobs[k].status == Cancelling && t.jobs[k].cancelRequested
            && !t.jobs[k].paused && !t.jobs[k].pauseRequested
            && t.jobs[k].sourceJob == s.jobs[k].sourceJob && t.jobs[k].disconnected == s.jobs[k].disconnected
            && (k in s.processes && Alive(s.os, s.processes[k]) && s.os[s.processes[k]].permitted ==>
                  Alive(t.os, s.processes[k]) && t.os[s.processes[k]].told && !t.os[s.processes[k]].stopped))
      && (!accepted ==> t == s)
  {
  }

  /** Completing sets the status, whatever there was, takes the job out of any pause, and wakes what was stopped for it. */
  lemma CompleteMeans(s: State, k: Key, status: Status)
    ensures
      var t := Complete(s, k, status);
      && k in t.jobs && t.jobs[k].status == status && !t.jobs[k].paused && !t.jobs[k].pauseRequested
      && (if k in s.jobs
          then t.jobs[k].sourceJob == s.jobs[k].sourceJob && t.jobs[k].cancelRequested == s.jobs[k].cancelRequested
          else t.jobs[k].sourceJob.None? && !t.jobs[k].cancelRequested)
      && (k in s.jobs && (s.jobs[k].paused || s.jobs[k].pauseRequested) ==> k !in t.stopped && Woken(s, t, k))
  {
  }

  // ---------------------------------------------------------------- admission

  /** The keys of running and cancelling jobs. */
  function Busy(s: State): set<Key> {
    set k | k in s.jobs && (s.jobs[k].status == Running || s.jobs[k].status == Cancelling)
  }

  /** Shutdown comes first, then maintenance, an active job of the key, and a full registry. */
  predicate RefusedFor(s: State, k: Key, reason: Rejection) {
    match reason
    case ShuttingDown => s.shuttingDown
    case UnderMaintenance => !s.shuttingDown && s.maintenance.Some?
    case AlreadyRunning => !s.shuttingDown && s.maintenance.None? && k in Busy(s)
    case NoCapacity => !s.shuttingDown && s.maintenance.None? && k !in Busy(s)
  }

  /** Admitted exactly without shutdown, maintenance or an active job of the key, and with room for one more. */
  lemma StartMeans(s: State, k: Key, newId: nat)
    ensures
      var (t, admitted) := Start(s, k, newId);
      && (admitted <==>
            && !s.shuttingDown && s.maintenance.None? && k !in Busy(s)
            && (s.limit.Some? ==> |Busy(s)| < s.limit.value))
      && (admitted ==>
            && k in t.jobs && t == s.(jobs := s.jobs[k := t.jobs[k]], rejections := s.rejections - {k}, stopped := s.stopped - {k})
            && t.jobs[k].status == Running && !t.jobs[k].cancelRequested && !t.jobs[k].disconnected
            && !t.jobs[k].paused && !t.jobs[k].pauseRequested
            && t.jobs[k].sourceJob == if k.jobType == "scan" || k.jobType == "report" then Some(newId) else None)
      && (!admitted ==> k in t.rejections && t == s.(rejections := s.rejections[k := t.rejections[k]])
                        && RefusedFor(s, k, t.rejections[k]))
  {
    assert Busy(s) == ActiveKeys(s.jobs);
    hide ActiveKeys;
  }

  /** The fence is granted exactly when nothing runs and it is free, or its own token asks; then nothing else changes. */
  lemma MaintenanceMeans(s: State, token: Option<nat>, newId: nat)
    ensures
      var (t, r) := AcquireMaintenance(s, token, newId);
      && (r.Some? <==>
            && !s.shuttingDown && s.processes == map[] && Busy(s) == {}
            && (s.maintenance.None? || token == s.maintenance))
      && (r.Some? ==> r == (if s.maintenance.Some? then s.maintenance else Some(newId)) && t == s.(maintenance := r))
      && (r.None? ==> t == s)
    ensures
      var (t, released) := ReleaseMaintenance(s, token);
      && (released <==> token.Some? && token == s.maintenance)
      && t == if released then s.(maintenance := None) else s
  {
    assert Busy(s) == ActiveKeys(s.jobs);
  }

  // ---------------------------------------------------------------- processes

  /** A process is refused exactly by a shutdown; one that comes during a pause is suspended, if it can be. */
  lemma AttachMeans(s: State, k: Key, pid: Pid)
    ensures
      var (t, attached) := Attach(s, k, pid);
      var late := k in s.jobs && s.jobs[k].pauseRequested && s.jobs[k].status == Running && s.posix
        && pid in s.os && s.os[pid].pausable && s.os[pid].permitted;
      && (attached <==> !s.shuttingDown)
      && (!attached ==> t == s)
      && (attached ==> t.processes == s.processes[k := pid] && OnlyProcess(s.os, t.os, pid))
      && (attached && late ==>
            && t.jobs == s.jobs[k := s.jobs[k].(paused := true, pauseMode := Some(ByProcess))]
            && t.stopped == s.stopped + {k} && (Alive(s.os, pid) ==> Suspended(t.os, pid)))
      && (attached && !late ==> t == s.(processes := s.processes[k := pid]))
  {
  }

  /** Forgetting, and shutting down: what is let go of, and that no process is touched by it. */
  lemma ForgettingMeans(s: State, k: Key)
    ensures ClearProcess(s, k) == s.(processes := s.processes - {k}, stopped := s.stopped - {k})
    ensures
      var t := ClearIfDisconnected(s, k);
      && t.processes == s.processes - {k} && t.stopped == s.stopped - {k} && t.os == s.os
      && (k in t.jobs <==> k in s.jobs && !s.jobs[k].disconnected)
      && (forall l | l != k :: l in t.jobs <==> l in s.jobs)
      && (forall l | l in t.jobs :: t.jobs[l] == s.jobs[l])
    ensures
      var (t, victims) := BeginShutdown(s);
      victims == s.processes && t == s.(shuttingDown := true, processes := map[], stopped := {})
  {
  }

  /** A browser that leaves: its active jobs are marked, its others and its rejections forgotten, nobody else's. */
  lemma DisconnectMeans(s: State, sid: string, k: Key)
    ensures
      var t := MarkDisconnected(s, sid);
      && t == s.(jobs := t.jobs, rejections := t.rejections)
      && (k in t.jobs <==> k in s.jobs && (k.sid != sid || k in Busy(s)))
      && (k in t.jobs ==> t.jobs[k] == if k.sid == sid then s.jobs[k].(disconnected := true) else s.jobs[k])
      && (k in t.rejections <==> k in s.rejections && k.sid != sid)
      && (k in t.rejections ==> t.rejections[k] == s.rejections[k])
  {
  }

  // ---------------------------------------------------------------- being told to end

  /** Dead, out of reach, or told to end while awake. */
  predicate Warned(os: Table, pid: Pid) {
    !Alive(os, pid) || !os[pid].permitted || os[pid].told
  }

  lemma SignalsKeepWarned(os: Table, pid: Pid, to: Pid, sig: Signal)
    requires Warned(os, pid)
    ensures Warned(Send(os, to, sig), pid) && Warned(Terminate(os, to, sig), pid)
  {
  }

  lemma CallKeepsWarned(w: World, e: Event, pid: Pid)
    requires JobStep(e) && Warned(w.s.os, pid)
    ensures Warned(Apply(w, e).s.os, pid)
  {
    hide Warned, Send, Terminate, Matches, Unpaused, StartRefusal;
    if e.k in w.s.processes {
      var to := w.s.processes[e.k];
      SignalsKeepWarned(w.s.os, pid, to, Stop);
      SignalsKeepWarned(w.s.os, pid, to, Cont);
      SignalsKeepWarned(w.s.os, pid, to, Term);
      SignalsKeepWarned(Send(w.s.os, to, Cont), pid, to, Term);
    }
  }

  /** Whoever was told to end stays so, until the process number is given to another. */
  lemma StepKeepsWarned(w: World, e: Event, pid: Pid)
    requires Warned(w.s.os, pid) && !(e.Spawn? && e.pid == pid)
    ensures Warned(Apply(w, e).s.os, pid)
  {
    if JobStep(e) {
      CallKeepsWarned(w, e, pid);
    } else if ProcessStep(e) {
      if e.TryAttach? {
        SignalsKeepWarned(w.s.os, pid, e.pid, Stop);
      }
      hide Warned, Send, Stoppable, Active;
    } else {
      if e.Drain? || e.WorkerSignal? {
        SignalsKeepWarned(w.s.os, pid, e.pid, if e.Drain? then Term else e.sig);
      }
      hide Send, Terminate, ActiveKeys;
    }
  }

  predicate NeverReused(es: seq<Event>, pid: Pid) {
    forall i | 0 <= i < |es| :: !(es[i].Spawn? && es[i].pid == pid)
  }

  lemma {:induction false} RunKeepsWarned(w: World, es: seq<Event>, pid: Pid)
    requires NeverReused(es, pid) && (Warned(w.s.os, pid) || pid in w.draining)
    ensures Warned(Run(w, es).s.os, pid) || pid in Run(w, es).draining
    ensures Warned(w.s.os, pid) ==> Warned(Run(w, es).s.os, pid)
    decreases |es|
  {
    if es != [] {
      if Warned(w.s.os, pid) {
        StepKeepsWarned(w, es[0], pid);
      } else {
        DrainingIsTold(w, es[0], pid);
      }
      hide Apply, Warned;
      RunKeepsWarned(Apply(w, es[0]), es[1..], pid);
    }
  }

  lemma DrainingIsTold(w: World, e: Event, pid: Pid)
    requires pid in w.draining
    ensures pid in Apply(w, e).draining || Warned(Apply(w, e).s.os, pid)
  {
    if JobStep(e) {
      JobStepTouches(w, e);
      hide Apply;
    } else {
      hide ActiveKeys, Stoppable, Active;
    }
  }

  /** After an accepted cancel, whatever else happens, the scan is dead, out of reach, or told to end. */
  lemma CancelledIsTold(w: World, k: Key, expected: Option<nat>, later: seq<Event>)
    requires k in w.s.processes && Cancel(w.s, k, expected).1 && NeverReused(later, w.s.processes[k])
    ensures Warned(Run(Apply(w, TryCancel(k, expected)), later).s.os, w.s.processes[k])
  {
    var pid := w.s.processes[k];
    CancelMeans(w.s, k, expected);
    CancelIsConfined(w.s, k, expected);
    hide Cancel, Touches;
    RunKeepsWarned(Apply(w, TryCancel(k, expected)), later, pid);
  }

  /** Once a shutdown is through, every scan it found is dead, out of reach, or told to end. */
  lemma ShutdownTellsAll(w: World, k: Key, later: seq<Event>)
    requires k in w.s.processes && NeverReused(later, w.s.processes[k])
    requires Run(Apply(w, DoShutdown), later).draining == {}
    ensures Warned(Run(Apply(w, DoShutdown), later).s.os, w.s.processes[k])
  {
    assert w.s.processes[k] in w.s.processes.Values;
    RunKeepsWarned(Apply(w, DoShutdown), later, w.s.processes[k]);
  }

  // ---------------------------------------------------------------- staying suspended

  /** What can wake, or end, the suspended process `pid`. */
  predicate Wakes(s: State, e: Event, pid: Pid) {
    match e
    case TryResume(k, expected) => Tracks(s, k, pid) && Resume(s, k, expected).1 == IsResumed
    case TryCancel(k, expected) => Tracks(s, k, pid) && Cancel(s, k, expected).1
    case DoComplete(k, _) => Tracks(s, k, pid)
    case Drain(p) => p == pid
    case WorkerSignal(p, _) => p == pid
    case Exit(p) => p == pid
    case _ => false
  }

  predicate Tracks(s: State, k: Key, pid: Pid) {
    k in s.processes && s.processes[k] == pid
  }

  lemma OthersStaySuspended(os: Table, pid: Pid, to: Pid, sig: Signal)
    requires Suspended(os, pid) && (to != pid || sig == Stop)
    ensures Suspended(Send(os, to, sig), pid) && (to != pid ==> Suspended(Terminate(os, to, sig), pid))
  {
  }

  lemma SignalsWake(os: Table, pid: Pid, sig: Signal)
    requires Suspended(os, pid) && os[pid].permitted
    ensures !Suspended(Send(os, pid, Cont), pid)
    ensures sig == Term || sig == Kill ==> !Suspended(Terminate(os, pid, sig), pid)
    ensures !Suspended(Terminate(Send(os, pid, Cont), pid, Term), pid)
  {
  }

  /** The process a key has suspended is in its books: stopped, and its job paused by process. */
  lemma SuspendedIsOwned(w: World, pid: Pid)
    requires Inv(w) && Suspended(w.s.os, pid)
    ensures w.s.os[pid].permitted
    ensures forall k | Tracks(w.s, k, pid) && pid !in w.draining :: k in w.s.stopped && k in w.s.jobs && PausedByProcess(w.s.jobs[k])
    ensures pid in w.draining ==> w.s.processes == map[]
  {
    if pid !in w.draining {
      var l :| l in w.s.stopped && l in w.s.processes && w.s.processes[l] == pid;
      forall k | Tracks(w.s, k, pid)
        ensures k == l
      {
      }
    }
  }

  lemma ResumingWakesIff(w: World, k: Key, expected: Option<nat>, pid: Pid)
    requires Inv(w) && Suspended(w.s.os, pid)
    ensures
      var (t, code) := Resume(w.s, k, expected);
      Suspended(t.os, pid) <==> !(Tracks(w.s, k, pid) && code == IsResumed)
  {
    hide Inv, Send, Suspended, Matches, Unpaused, Deliverable, Alive;
    SuspendedIsOwned(w, pid);
    if k in w.s.processes {
      if w.s.processes[k] == pid {
        SignalsWake(w.s.os, pid, Term);
      } else {
        OthersStaySuspended(w.s.os, pid, w.s.processes[k], Cont);
      }
    }
  }

  lemma CancellingWakesIff(w: World, k: Key, expected: Option<nat>, pid: Pid)
    requires Inv(w) && Suspended(w.s.os, pid)
    ensures
      var (t, accepted) := Cancel(w.s, k, expected);
      Suspended(t.os, pid) <==> !(Tracks(w.s, k, pid) && accepted)
  {
    hide Inv, Send, Terminate, Suspended, Matches, Unpaused, Deliverable, Alive;
    SuspendedIsOwned(w, pid);
    if k in w.s.processes {
      var to := w.s.processes[k];
      if to == pid {
        SignalsWake(w.s.os, pid, Term);
      } else {
        OthersStaySuspended(w.s.os, pid, to, Cont);
        OthersStaySuspended(w.s.os, pid, to, Term);
        OthersStaySuspended(Send(w.s.os, to, Cont), pid, to, Term);
      }
    }
  }

  lemma CompletingWakesIff(w: World, k: Key, status: Status, pid: Pid)
    requires Inv(w) && Suspended(w.s.os, pid)
    ensures Suspended(Complete(w.s, k, status).os, pid) <==> !Tracks(w.s, k, pid)
  {
    hide Inv, Send, Terminate, Suspended, Unpaused, Deliverable, Alive;
    SuspendedIsOwned(w, pid);
    if k in w.s.processes {
      if w.s.processes[k] == pid {
        SignalsWake(w.s.os, pid, Term);
      } else {
        OthersStaySuspended(w.s.os, pid, w.s.processes[k], Cont);
      }
    }
  }

  lemma PausingWakesNone(w: World, e: Event, pid: Pid)
    requires Suspended(w.s.os, pid) && (e.TryPause? || e.TryAttach?)
    ensures Suspended(Apply(w, e).s.os, pid)
  {
    hide Send, Suspended, Matches, InPause;
    if e.TryAttach? {
      OthersStaySuspended(w.s.os, pid, e.pid, Stop);
    } else if e.k in w.s.processes {
      OthersStaySuspended(w.s.os, pid, w.s.processes[e.k], Stop);
    }
  }

  lemma SignalWakesIff(w: World, e: Event, pid: Pid)
    requires Proper(w, e) && Suspended(w.s.os, pid) && w.s.os[pid].permitted && (e.Drain? || e.WorkerSignal?)
    ensures Suspended(Apply(w, e).s.os, pid) <==> e.pid != pid
  {
    SignalsWake(w.s.os, pid, if e.Drain? then Term else e.sig);
    if e.pid != pid {
      OthersStaySuspended(w.s.os, pid, e.pid, if e.Drain? then Term else e.sig);
    }
    hide Terminate;
  }

  lemma OthersWakeIff(w: World, e: Event, pid: Pid)
    requires Inv(w) && Proper(w, e) && Suspended(w.s.os, pid) && !e.TryResume? && !e.TryCancel? && !e.DoComplete?
    ensures Suspended(Apply(w, e).s.os, pid) <==> !Wakes(w.s, e, pid)
  {
    if e.TryPause? || e.TryAttach? {
      hide Apply;
      PausingWakesNone(w, e, pid);
    } else if e.Drain? || e.WorkerSignal? {
      SuspendedIsOwned(w, pid);
      hide Apply, Inv;
      SignalWakesIff(w, e, pid);
    } else {
      hide Inv, ActiveKeys, StartRefusal, Active, Held, NewJob;
    }
  }

  /**
   A suspended scan is woken or ended exactly by an accepted resume or cancel of its job, by its completion,
   by a shutdown's or its worker's signal, or when it is killed from outside; by nothing else, whoever acts.
   */
  lemma SuspendedUntilWoken(w: World, e: Event, pid: Pid)
    requires Inv(w) && Proper(w, e) && Suspended(w.s.os, pid)
    ensures Suspended(Apply(w, e).s.os, pid) <==> !Wakes(w.s, e, pid)
  {
    hide Inv, Suspended, Proper, Complete, Resume, Cancel;
    match e {
      case TryResume(k, expected) => ResumingWakesIff(w, k, expected, pid);
      case TryCancel(k, expected) => CancellingWakesIff(w, k, expected, pid);
      case DoComplete(k, status) => CompletingWakesIff(w, k, status, pid);
      case _ => OthersWakeIff(w, e, pid);
    }
  }

  predicate NoneWakes(w: World, es: seq<Event>, pid: Pid)
    decreases |es|
  {
    es == [] || (!Wakes(w.s, es[0], pid) && NoneWakes(Apply(w, es[0]), es[1..], pid))
  }

  lemma {:induction false} RunStaysSuspended(w: World, es: seq<Event>, pid: Pid)
    requires Inv(w) && ProperRun(w, es) && Suspended(w.s.os, pid) && NoneWakes(w, es, pid)
    ensures Suspended(Run(w, es).s.os, pid)
    decreases |es|
  {
    if es != [] {
      SuspendedUntilWoken(w, es[0], pid);
      StepKeepsInv(w, es[0]);
      hide Inv, Apply, Proper, Suspended, Wakes;
      RunStaysSuspended(Apply(w, es[0]), es[1..], pid);
    }
  }

  /** From every reachable state: a pause of a live scan within reach suspends it, until something wakes it. */
  lemma PausedUntilWoken(w: World, es: seq<Event>, k: Key, expected: Option<nat>, later: seq<Event>)
    requires Initial(w) && ProperRun(w, es)
    requires
      var s := Run(w, es).s;
      && Addressed(s, k, expected) && !s.jobs[k].paused && !s.jobs[k].pauseRequested && s.posix
      && Reachable(s, k) && Alive(s.os, s.processes[k])
    requires
      var v := Apply(Run(w, es), TryPause(k, expected));
      ProperRun(v, later) && NoneWakes(v, later, Run(w, es).s.processes[k])
    ensures Pause(Run(w, es).s, k, expected).1 == IsPaused
    ensures Suspended(Run(Apply(Run(w, es), TryPause(k, expected)), later).s.os, Run(w, es).s.processes[k])
  {
    InitialHasInv(w);
    RunKeepsInv(w, es);
    var u := Run(w, es);
    PauseMeans(u.s, k, expected);
    StepKeepsInv(u, TryPause(k, expected));
    RunStaysSuspended(Apply(u, TryPause(k, expected)), later, u.s.processes[k]);
  }
}
