/** What every interleaving of registry steps, worker signals and process exits keeps. */
module RegistrySafety {
  import opened Wrappers
  import opened Processes
  import opened Registry
  import opened Sets

  /** The registry, and the processes a shutdown has taken from it but not yet woken. */
  datatype World = World(s: State, draining: set<Pid>)

  datatype Event =
    | TryAcquire(token: Option<nat>, newId: nat)
    | TryRelease(token: Option<nat>)
    | TryStart(k: Key, newId: nat)
    | DoComplete(k: Key, status: Status)
    | TryCancel(k: Key, expected: Option<nat>)
    | TryPause(k: Key, expected: Option<nat>)
    | TryResume(k: Key, expected: Option<nat>)
    | AtCheck(k: Key)
    | TryAttach(k: Key, pid: Pid)
    | DoClear(k: Key)
    | DoClearIfDisconnected(k: Key)
    | DoDisconnect(sid: string)
    | DoShutdown
    | Drain(pid: Pid)                      // terminate_all signals one of the processes it took
    | WorkerSignal(pid: Pid, sig: Signal)  // run_cancellable_command ends its own process
    | Spawn(pid: Pid, proc: Proc)
    | Exit(pid: Pid)
    | Reap(pid: Pid)

  /**
   What the callers do: completions carry a final status, a process is attached once, fresh, though
   perhaps exited already, and never over a suspended one; none is forgotten while it is suspended; and a
   worker's own signals are SIGTERM and SIGKILL. A process number is not reused while it is tracked.
   */
  predicate Proper(w: World, e: Event) {
    match e
    case DoComplete(_, status) => status.Completed? || status.Failed? || status.Cancelled?
    case TryAttach(k, pid) =>
      && (k in w.s.processes ==> !Suspended(w.s.os, w.s.processes[k]))
      && pid !in w.s.processes.Values && pid !in w.draining && !Suspended(w.s.os, pid)
    case DoClear(k) => k in w.s.processes ==> !Suspended(w.s.os, w.s.processes[k])
    case DoClearIfDisconnected(k) => k in w.s.processes ==> !Suspended(w.s.os, w.s.processes[k])
    case WorkerSignal(_, sig) => sig.Term? || sig.Kill?
    case Spawn(pid, proc) => pid !in w.s.os && pid !in w.s.processes.Values && pid !in w.draining
                             && proc.life.Live? && !proc.stopped
    case Reap(pid) => pid in w.s.os && w.s.os[pid].life.Zombie?
    case _ => true
  }

  function Apply(w: World, e: Event): World {
    match e
    case TryAcquire(token, newId) => w.(s := AcquireMaintenance(w.s, token, newId).0)
    case TryRelease(token) => w.(s := ReleaseMaintenance(w.s, token).0)
    case TryStart(k, newId) => w.(s := Start(w.s, k, newId).0)
    case DoComplete(k, status) => w.(s := Complete(w.s, k, status))
    case TryCancel(k, expected) => w.(s := Cancel(w.s, k, expected).0)
    case TryPause(k, expected) => w.(s := Pause(w.s, k, expected).0)
    case TryResume(k, expected) => w.(s := Resume(w.s, k, expected).0)
    case AtCheck(k) => w.(s := Checkpoint(w.s, k).0)
    case TryAttach(k, pid) => w.(s := Attach(w.s, k, pid).0)
    case DoClear(k) => w.(s := ClearProcess(w.s, k))
    case DoClearIfDisconnected(k) => w.(s := ClearIfDisconnected(w.s, k))
    case DoDisconnect(sid) => w.(s := MarkDisconnected(w.s, sid))
    case DoShutdown => World(BeginShutdown(w.s).0, w.draining + BeginShutdown(w.s).1.Values)
    case Drain(pid) => World(w.s.(os := if Alive(w.s.os, pid) then Terminate(w.s.os, pid, Term) else w.s.os), w.draining - {pid})
    case WorkerSignal(pid, sig) => w.(s := w.s.(os := Terminate(w.s.os, pid, sig)))
    case Spawn(pid, proc) => w.(s := w.s.(os := w.s.os[pid := proc]))
    case Exit(pid) => if Alive(w.s.os, pid) then w.(s := w.s.(os := w.s.os[pid := w.s.os[pid].(life := Zombie, stopped := false)])) else w
    case Reap(pid) => w.(s := w.s.(os := w.s.os - {pid}))
  }

  // ---------------------------------------------------------------- the invariant

  predicate PausedByProcess(j: Job) {
    j.status.Running? && !j.cancelRequested && j.paused && j.pauseRequested && j.pauseMode == Some(ByProcess)
  }

  /** The keys this registry has stopped are tracked, and their jobs say so. */
  ghost predicate StoppedAreTracked(s: State) {
    forall k | k in s.stopped :: k in s.processes && k in s.jobs && PausedByProcess(s.jobs[k])
  }

  /** A live suspended process belongs to a stopped key, or a shutdown is about to wake it. */
  ghost predicate SuspendedAreStopped(w: World) {
    forall pid | Suspended(w.s.os, pid) ::
      && w.s.os[pid].permitted
      && (pid in w.draining || exists k :: k in w.s.stopped && k in w.s.processes && w.s.processes[k] == pid)
  }

  /** Pause fields agree with each other and with the status. */
  predicate Coherent(j: Job) {
    && (j.cancelRequested ==> !j.status.Running?)
    && (j.pauseRequested ==> j.status.Running?)
    && (j.paused ==> j.pauseRequested)
    && (j.pauseMode.Some? <==> j.pauseRequested)
  }

  ghost predicate AllCoherent(s: State) {
    forall k | k in s.jobs :: Coherent(s.jobs[k])
  }

  /** Capacity, and the maintenance fence. */
  ghost predicate Admitted(s: State) {
    && (s.limit.Some? ==> s.limit.value >= 1 && |ActiveKeys(s.jobs)| <= s.limit.value)
    && (s.maintenance.Some? ==> ActiveKeys(s.jobs) == {})
  }

  ghost predicate Owned(w: World) {
    && (forall k, l | k in w.s.processes && l in w.s.processes && w.s.processes[k] == w.s.processes[l] :: k == l)
    && (w.s.shuttingDown ==> w.s.processes == map[])
    && (w.draining != {} ==> w.s.shuttingDown)
  }

  ghost predicate Inv(w: World) {
    StoppedAreTracked(w.s) && SuspendedAreStopped(w) && AllCoherent(w.s) && Admitted(w.s) && Owned(w)
  }

  // ---------------------------------------------------------------- one step

  /** Steps on the job of one key. */
  predicate JobStep(e: Event) {
    e.TryStart? || e.DoComplete? || e.TryCancel? || e.TryPause? || e.TryResume? || e.AtCheck?
  }

  /** Steps that change which processes are tracked, or what is known of a browser. */
  predicate ProcessStep(e: Event) {
    e.TryAttach? || e.DoClear? || e.DoClearIfDisconnected? || e.DoDisconnect? || e.DoShutdown?
  }

  /** Only the job and the stopped mark of `k` differ, and perhaps the rejections and the processes' state. */
  ghost predicate Touches(s: State, t: State, k: Key) {
    && t.processes == s.processes && t.shuttingDown == s.shuttingDown
    && t.maintenance == s.maintenance && t.limit == s.limit
    && (t.jobs == s.jobs || (k in t.jobs && t.jobs == s.jobs[k := t.jobs[k]]))
    && (t.stopped == s.stopped || t.stopped == s.stopped + {k} || t.stopped == s.stopped - {k})
  }

  lemma StartTouches(s: State, k: Key, newId: nat)
    ensures Touches(s, Start(s, k, newId).0, k)
  {
    hide StartRefusal, NewJob;
  }

  lemma CompleteTouches(s: State, k: Key, status: Status)
    ensures Touches(s, Complete(s, k, status), k)
  {
    hide Send, Unpaused, InPause;
  }

  lemma CancelTouches(s: State, k: Key, expected: Option<nat>)
    ensures Touches(s, Cancel(s, k, expected).0, k)
  {
    hide Send, Terminate, Matches, Unpaused, InPause;
  }

  lemma ResumeTouches(s: State, k: Key, expected: Option<nat>)
    ensures Touches(s, Resume(s, k, expected).0, k)
  {
    hide Send, Matches, Unpaused, InPause;
  }

  lemma PauseTouches(s: State, k: Key, expected: Option<nat>)
    ensures Touches(s, Pause(s, k, expected).0, k)
  {
    hide Send, Matches, Stoppable, InPause;
  }

  lemma CheckpointTouches(s: State, k: Key)
    ensures Touches(s, Checkpoint(s, k).0, k)
  {
    HeldHasJob(s, k);
    hide Held;
  }

  lemma HeldHasJob(s: State, k: Key)
    ensures Held(s, k) ==> k in s.jobs
  {
  }

  lemma JobStepTouches(w: World, e: Event)
    requires JobStep(e)
    ensures Apply(w, e).draining == w.draining && Touches(w.s, Apply(w, e).s, e.k)
  {
    hide Touches, Start, Complete, Cancel, Pause, Resume, Checkpoint;
    match e {
      case TryStart(k, newId) => StartTouches(w.s, k, newId);
      case DoComplete(k, status) => CompleteTouches(w.s, k, status);
      case TryCancel(k, expected) => CancelTouches(w.s, k, expected);
      case TryResume(k, expected) => ResumeTouches(w.s, k, expected);
      case TryPause(k, expected) => PauseTouches(w.s, k, expected);
      case AtCheck(k) => CheckpointTouches(w.s, k);
    }
  }

  lemma SystemStepTouches(w: World, e: Event)
    requires !JobStep(e) && !ProcessStep(e)
    ensures
      var t := Apply(w, e).s;
      && t.jobs == w.s.jobs && t.processes == w.s.processes && t.stopped == w.s.stopped
      && t.shuttingDown == w.s.shuttingDown && t.limit == w.s.limit
      && (Apply(w, e).draining != {} ==> w.draining != {})
  {
    hide Send, Terminate, ActiveKeys;
  }

  lemma EndingStopsNone(w: World, e: Event)
    requires Inv(w) && (e.DoComplete? || e.TryCancel? || e.TryResume?)
    ensures e.k in Apply(w, e).s.stopped ==> Apply(w, e).s.jobs == w.s.jobs && e.k in w.s.stopped
  {
    hide Send, Terminate, Matches, SuspendedAreStopped, Admitted, Owned, AllCoherent;
  }

  lemma JobStepStopsOwn(w: World, e: Event)
    requires Inv(w) && Proper(w, e) && JobStep(e)
    ensures
      var t := Apply(w, e).s;
      e.k in t.stopped ==> e.k in t.processes && e.k in t.jobs && PausedByProcess(t.jobs[e.k])
  {
    if e.DoComplete? || e.TryCancel? || e.TryResume? {
      hide Apply, PausedByProcess;
      EndingStopsNone(w, e);
      JobStepTouches(w, e);
    } else {
      hide Send, Matches, SuspendedAreStopped, Admitted, Owned, Alive, Deliverable, StartRefusal;
      assert e.k in w.s.jobs ==> Coherent(w.s.jobs[e.k]);
    }
  }

  lemma StepKeepsStopped(w: World, e: Event)
    requires Inv(w) && Proper(w, e)
    ensures StoppedAreTracked(Apply(w, e).s)
  {
    if JobStep(e) {
      hide Apply, Proper;
      JobStepTouches(w, e);
      JobStepStopsOwn(w, e);
    } else if ProcessStep(e) {
      hide Apply, Proper;
      ProcessStepKeepsStopped(w, e);
    } else {
      SystemStepTouches(w, e);
      hide Apply, Proper;
    }
  }

  lemma ProcessStepKeepsStopped(w: World, e: Event)
    requires StoppedAreTracked(w.s) && AllCoherent(w.s) && ProcessStep(e)
    ensures StoppedAreTracked(Apply(w, e).s)
  {
    hide Send, ActiveKeys, Stoppable;
    if e.TryAttach? {
      AttachKeepsStopped(w.s, e.k, e.pid);
      hide Apply, Attach;
      assert Apply(w, e).s == Attach(w.s, e.k, e.pid).0 by { AttachApplies(w, e.k, e.pid); }
    }
  }

  lemma AttachApplies(w: World, k: Key, pid: Pid)
    ensures Apply(w, TryAttach(k, pid)).s == Attach(w.s, k, pid).0
  {
  }

  lemma AttachKeepsStopped(s: State, k: Key, pid: Pid)
    requires StoppedAreTracked(s) && AllCoherent(s)
    ensures StoppedAreTracked(Attach(s, k, pid).0)
  {
    hide Send, Stoppable;
    assert k in s.jobs ==> Coherent(s.jobs[k]);
  }

  /** Waking a key's process leaves every other suspended process where it was. */
  lemma WakeKeepsSuspended(w: World, k: Key)
    requires Inv(w) && k in w.s.jobs
    ensures
      var s := Wake(w.s, k, w.s.jobs[k]);
      && SuspendedAreStopped(w.(s := s))
      && k !in s.stopped
      && (k in s.processes ==> !Suspended(s.os, s.processes[k]))
  {
  }

  lemma TerminateWakes(os: Table, pid: Pid, sig: Signal)
    requires sig.Term? || sig.Kill?
    ensures
      var t := Terminate(os, pid, sig);
      && (forall p | Suspended(t, p) :: Suspended(os, p) && t[p] == os[p])
      && (Suspended(os, pid) && os[pid].permitted ==> !Suspended(t, pid))
  {
  }

  lemma PauseKeepsSuspended(w: World, k: Key, expected: Option<nat>)
    requires Inv(w)
    ensures SuspendedAreStopped(w.(s := Pause(w.s, k, expected).0))
  {
    var s := Pause(w.s, k, expected).0;
    forall pid | Suspended(s.os, pid)
      ensures s.os[pid].permitted
      ensures pid in w.draining || exists l :: l in s.stopped && l in s.processes && s.processes[l] == pid
    {
      if Suspended(w.s.os, pid) {
        assert pid in w.draining || exists l :: l in w.s.stopped && l in w.s.processes && w.s.processes[l] == pid;
      } else {
        assert k in s.stopped && s.processes[k] == pid;
      }
    }
  }

  lemma AttachKeepsSuspended(w: World, k: Key, pid: Pid)
    requires Inv(w) && Proper(w, TryAttach(k, pid))
    ensures SuspendedAreStopped(w.(s := Attach(w.s, k, pid).0))
  {
    var s := Attach(w.s, k, pid).0;
    forall p | Suspended(s.os, p)
      ensures s.os[p].permitted
      ensures p in w.draining || exists l :: l in s.stopped && l in s.processes && s.processes[l] == p
    {
      if p != pid {
        assert Suspended(w.s.os, p);
        if p !in w.draining {
          var l :| l in w.s.stopped && l in w.s.processes && w.s.processes[l] == p;
          assert l in s.stopped && l in s.processes && s.processes[l] == p;
        }
      } else {
        assert k in s.stopped && s.processes[k] == pid;
      }
    }
  }

  /** Forgetting a key keeps the invariant on suspended processes exactly when it forgets no suspended one. */
  lemma ForgettingIsSafeIff(w: World, k: Key)
    requires Inv(w)
    ensures SuspendedAreStopped(w.(s := ClearProcess(w.s, k))) <==>
      !(k in w.s.processes && Suspended(w.s.os, w.s.processes[k]))
  {
    var s := ClearProcess(w.s, k);
    if !(k in w.s.processes && Suspended(w.s.os, w.s.processes[k])) {
      forall p | Suspended(s.os, p)
        ensures s.os[p].permitted
        ensures p in w.draining || exists l :: l in s.stopped && l in s.processes && s.processes[l] == p
      {
        assert Suspended(w.s.os, p);
        if p !in w.draining {
          var l :| l in w.s.stopped && l in w.s.processes && w.s.processes[l] == p;
          assert l in s.stopped && l in s.processes && s.processes[l] == p;
        }
      }
    } else {
      assert Suspended(s.os, w.s.processes[k]);
    }
  }

  /** Attaching over a tracked process is safe exactly when that process is not suspended. */
  lemma AttachingIsSafeIff(w: World, k: Key, pid: Pid)
    requires Inv(w) && !w.s.shuttingDown
    requires pid !in w.s.processes.Values && Alive(w.s.os, pid) && !w.s.os[pid].stopped
    ensures SuspendedAreStopped(w.(s := Attach(w.s, k, pid).0)) <==>
      !(k in w.s.processes && Suspended(w.s.os, w.s.processes[k]))
  {
    var s := Attach(w.s, k, pid).0;
    if k in w.s.processes && Suspended(w.s.os, w.s.processes[k]) {
      assert Suspended(s.os, w.s.processes[k]);
    } else {
      forall p | Suspended(s.os, p)
        ensures s.os[p].permitted
        ensures exists l :: l in s.stopped && l in s.processes && s.processes[l] == p
      {
        if p == pid {
          assert k in s.stopped && s.processes[k] == pid;
        } else {
          assert Suspended(w.s.os, p);
          var l :| l in w.s.stopped && l in w.s.processes && w.s.processes[l] == p;
          assert l in s.stopped && l in s.processes && s.processes[l] == p;
        }
      }
    }
  }

  lemma ShutdownKeepsSuspended(w: World)
    requires Inv(w)
    ensures SuspendedAreStopped(Apply(w, DoShutdown))
  {
    var v := Apply(w, DoShutdown);
    forall p | Suspended(v.s.os, p)
      ensures v.s.os[p].permitted && p in v.draining
    {
      assert Suspended(w.s.os, p);
    }
  }

  lemma StepKeepsSuspended(w: World, e: Event)
    requires Inv(w) && Proper(w, e)
    ensures SuspendedAreStopped(Apply(w, e))
  {
    match e {
      case DoComplete(k, status) => EndingKeepsSuspended(w, e, k);
      case TryCancel(k, expected) => EndingKeepsSuspended(w, e, k);
      case TryResume(k, expected) => EndingKeepsSuspended(w, e, k);
      case TryPause(k, expected) => PauseKeepsSuspended(w, k, expected);
      case TryAttach(k, pid) => AttachKeepsSuspended(w, k, pid);
      case DoClear(k) => ForgettingIsSafeIff(w, k);
      case DoClearIfDisconnected(k) => ForgettingIsSafeIff(w, k);
      case DoShutdown => ShutdownKeepsSuspended(w);
      case DoDisconnect(sid) =>
      case _ => OtherKeepsSuspended(w, e);
    }
  }

  lemma EndingKeepsSuspended(w: World, e: Event, k: Key)
    requires Inv(w) && Proper(w, e) && (e.DoComplete? || e.TryCancel? || e.TryResume?) && e.k == k
    ensures SuspendedAreStopped(Apply(w, e))
  {
    hide Wake, Terminate, Send, ActiveKeys, Admitted, AllCoherent, Owned, StoppedAreTracked;
    if k in w.s.jobs {
      WakeKeepsSuspended(w, k);
      if e.TryCancel? && k in w.s.processes {
        TerminateWakes(Wake(w.s, k, w.s.jobs[k]).os, w.s.processes[k], Term);
      }
    }
  }

  lemma OtherKeepsSuspended(w: World, e: Event)
    requires Inv(w) && Proper(w, e) && !ProcessStep(e) && (JobStep(e) ==> e.TryStart? || e.AtCheck?)
    ensures SuspendedAreStopped(Apply(w, e))
  {
    hide Terminate, Send, ActiveKeys, Admitted, AllCoherent, Owned;
    if e.Drain? {
      TerminateWakes(w.s.os, e.pid, Term);
    } else if e.WorkerSignal? {
      TerminateWakes(w.s.os, e.pid, e.sig);
    }
  }

  lemma EndingLeavesCoherent(w: World, e: Event)
    requires AllCoherent(w.s) && Proper(w, e) && (e.DoComplete? || e.TryCancel? || e.TryResume?)
    ensures e.k in Apply(w, e).s.jobs ==> Coherent(Apply(w, e).s.jobs[e.k])
  {
    hide Send, Terminate, Matches, Wake;
    assert e.k in w.s.jobs ==> Coherent(w.s.jobs[e.k]);
    WakeKeepsJobs(w.s, e.k);
  }

  lemma JobStepLeavesCoherent(w: World, e: Event)
    requires AllCoherent(w.s) && Proper(w, e) && JobStep(e)
    ensures e.k in Apply(w, e).s.jobs ==> Coherent(Apply(w, e).s.jobs[e.k])
  {
    if e.DoComplete? || e.TryCancel? || e.TryResume? {
      hide Apply, Coherent, Proper;
      EndingLeavesCoherent(w, e);
    } else {
      hide Send, Matches, Stoppable, StartRefusal;
      assert e.k in w.s.jobs ==> Coherent(w.s.jobs[e.k]);
    }
  }

  lemma WakeKeepsJobs(s: State, k: Key)
    ensures k in s.jobs ==> Wake(s, k, s.jobs[k]).jobs == s.jobs
  {
  }

  lemma StepKeepsCoherent(w: World, e: Event)
    requires Inv(w) && Proper(w, e)
    ensures AllCoherent(Apply(w, e).s)
  {
    if JobStep(e) {
      hide Apply, Proper, Coherent;
      JobStepTouches(w, e);
      JobStepLeavesCoherent(w, e);
    } else if ProcessStep(e) {
      hide Send, Terminate, Matches, Stoppable, ActiveKeys, StoppedAreTracked, SuspendedAreStopped, Admitted, Owned;
    } else {
      SystemStepTouches(w, e);
      hide Apply, Proper;
    }
  }

  lemma StepKeepsOwned(w: World, e: Event)
    requires Inv(w) && Proper(w, e)
    ensures Owned(Apply(w, e))
  {
    if JobStep(e) {
      hide Apply, Proper;
      JobStepTouches(w, e);
    } else if ProcessStep(e) {
      hide Send, Terminate, Matches, Stoppable, ActiveKeys, StoppedAreTracked, SuspendedAreStopped, Admitted, Coherent;
    } else {
      SystemStepTouches(w, e);
      hide Apply, Proper;
    }
  }

  lemma ActiveShrink(a: map<Key, Job>, b: map<Key, Job>)
    requires forall k | k in b && Active(b[k]) :: k in a && Active(a[k])
    ensures ActiveKeys(b) <= ActiveKeys(a) && |ActiveKeys(b)| <= |ActiveKeys(a)|
  {
    SubsetIsSmaller(ActiveKeys(b), ActiveKeys(a));
  }

  lemma JobStepShrinks(w: World, e: Event)
    requires Proper(w, e) && JobStep(e) && !e.TryStart?
    ensures e.k in Apply(w, e).s.jobs && Active(Apply(w, e).s.jobs[e.k]) ==> e.k in w.s.jobs && Active(w.s.jobs[e.k])
  {
    hide Send, Terminate, Matches, Stoppable, Alive, ActiveKeys;
  }

  /** Only an admitted start makes a job active. */
  lemma StepShrinks(w: World, e: Event)
    requires Proper(w, e) && !e.TryStart?
    ensures forall k | k in Apply(w, e).s.jobs && Active(Apply(w, e).s.jobs[k]) :: k in w.s.jobs && Active(w.s.jobs[k])
  {
    if JobStep(e) {
      hide Apply, Proper, Active;
      JobStepTouches(w, e);
      JobStepShrinks(w, e);
    } else if ProcessStep(e) {
      hide Send, Terminate, Matches, Stoppable, Alive, ActiveKeys;
    } else {
      SystemStepTouches(w, e);
      hide Apply, Proper;
    }
  }

  /** Neither the limit nor the fence moves, except that maintenance is taken when nothing is active. */
  lemma StepKeepsFence(w: World, e: Event)
    ensures Apply(w, e).s.limit == w.s.limit
    ensures Apply(w, e).s.maintenance.Some? ==>
      w.s.maintenance.Some? || (e.TryAcquire? && ActiveKeys(w.s.jobs) == {})
  {
    if JobStep(e) {
      hide Apply;
      JobStepTouches(w, e);
    } else {
      hide Send, Terminate, Stoppable, Alive, ActiveKeys, Unpaused;
    }
  }

  lemma StepKeepsAdmitted(w: World, e: Event)
    requires Admitted(w.s) && Proper(w, e)
    ensures Admitted(Apply(w, e).s)
  {
    StepKeepsFence(w, e);
    if e.TryStart? {
      StartKeepsAdmitted(w.s, e.k, e.newId);
    } else {
      hide Apply, Proper;
      StepShrinks(w, e);
      ActiveShrink(w.s.jobs, Apply(w, e).s.jobs);
    }
  }

  lemma CompleteSets(s: State, k: Key, status: Status)
    ensures k in Complete(s, k, status).jobs && Complete(s, k, status).jobs[k].status == status
  {
  }

  /** Completing keeps the capacity and the fence exactly when it makes no job active beyond them. */
  lemma CompletingIsAdmittedIff(s: State, k: Key, status: Status)
    requires Admitted(s)
    ensures Admitted(Complete(s, k, status)) <==>
      || (!status.Running? && !status.Cancelling?)
      || (k in s.jobs && Active(s.jobs[k]))
      || (s.maintenance.None? && (s.limit.Some? ==> |ActiveKeys(s.jobs)| < s.limit.value))
  {
    hide Complete;
    var t := Complete(s, k, status);
    CompleteTouches(s, k, status);
    CompleteSets(s, k, status);
    if status.Running? || status.Cancelling? {
      assert ActiveKeys(t.jobs) == ActiveKeys(s.jobs) + {k};
      assert k in ActiveKeys(s.jobs) <==> k in s.jobs && Active(s.jobs[k]);
      if k in ActiveKeys(s.jobs) {
        assert ActiveKeys(t.jobs) == ActiveKeys(s.jobs);
      }
    } else {
      ActiveShrink(s.jobs, t.jobs);
    }
  }

  lemma StartKeepsAdmitted(s: State, k: Key, newId: nat)
    requires Admitted(s)
    ensures Admitted(Start(s, k, newId).0)
  {
    var t := Start(s, k, newId).0;
    if StartRefusal(s, k).None? {
      assert ActiveKeys(t.jobs) == ActiveKeys(s.jobs) + {k};
    }
  }

  lemma StepKeepsInv(w: World, e: Event)
    requires Inv(w) && Proper(w, e)
    ensures Inv(Apply(w, e))
  {
    hide Apply;
    StepKeepsStopped(w, e);
    StepKeepsSuspended(w, e);
    StepKeepsCoherent(w, e);
    StepKeepsAdmitted(w, e);
    StepKeepsOwned(w, e);
  }

  // ---------------------------------------------------------------- whole runs

  function Run(w: World, es: seq<Event>): World
    decreases |es|
  {
    if es == [] then w else Run(Apply(w, es[0]), es[1..])
  }

  predicate ProperRun(w: World, es: seq<Event>)
    decreases |es|
  {
    es == [] || (Proper(w, es[0]) && ProperRun(Apply(w, es[0]), es[1..]))
  }

  /** A new registry over any processes, none of them suspended. */
  ghost predicate Initial(w: World) {
    && w.s.jobs == map[] && w.s.processes == map[] && w.s.stopped == {} && w.draining == {}
    && !w.s.shuttingDown && w.s.maintenance.None? && (w.s.limit.Some? ==> w.s.limit.value >= 1)
    && forall pid :: !Suspended(w.s.os, pid)
  }

  lemma InitialHasInv(w: World)
    requires Initial(w)
    ensures Inv(w)
  {
    assert ActiveKeys(w.s.jobs) == {};
  }

  lemma {:induction false} RunKeepsInv(w: World, es: seq<Event>)
    requires Inv(w) && ProperRun(w, es)
    ensures Inv(Run(w, es))
    decreases |es|
  {
    if es != [] {
      StepKeepsInv(w, es[0]);
      RunKeepsInv(Apply(w, es[0]), es[1..]);
    }
  }

  /**
   In every reachable state, a live suspended scan is one the registry has stopped, tracks, and shows
   as a running job paused in mode "process" and not cancelled; or a shutdown is about to wake it.
   */
  lemma SuspendedIsPaused(w: World, es: seq<Event>, pid: Pid)
    requires Initial(w) && ProperRun(w, es)
    ensures
      var v := Run(w, es);
      Suspended(v.s.os, pid) && pid !in v.draining ==>
        exists k :: k in v.s.stopped && k in v.s.processes && v.s.processes[k] == pid
          && k in v.s.jobs && PausedByProcess(v.s.jobs[k])
  {
    InitialHasInv(w);
    RunKeepsInv(w, es);
    var v := Run(w, es);
    if Suspended(v.s.os, pid) && pid !in v.draining {
      var k :| k in v.s.stopped && k in v.s.processes && v.s.processes[k] == pid;
      assert PausedByProcess(v.s.jobs[k]);
    }
  }

  /** Cancelling, completing or resuming a job never leaves its scan suspended, nor a workflow held. */
  lemma EndingWakes(w: World, es: seq<Event>, e: Event)
    requires Initial(w) && ProperRun(w, es) && Proper(Run(w, es), e)
    requires e.TryCancel? || e.DoComplete? || e.TryResume?
    ensures
      var v := Run(w, es);
      var accepted := match e
        case TryCancel(k, expected) => Cancel(v.s, k, expected).1
        case TryResume(k, expected) => Resume(v.s, k, expected).1.IsResumed?
        case _ => true;
      var t := Apply(v, e).s;
      accepted ==> !Held(t, e.k) && (e.k in t.processes ==> !Suspended(t.os, t.processes[e.k]))
  {
    InitialHasInv(w);
    RunKeepsInv(w, es);
    var v := Run(w, es);
    if e.k in v.s.jobs {
      WakeKeepsSuspended(v, e.k);
      if e.TryCancel? && e.k in v.s.processes {
        TerminateWakes(Wake(v.s, e.k, v.s.jobs[e.k]).os, v.s.processes[e.k], Term);
      }
    }
  }

  /** Once a shutdown has signalled the processes it took, no scan is left suspended, whatever else ran. */
  lemma ShutdownWakesAll(w: World, es: seq<Event>, pid: Pid)
    requires Initial(w) && ProperRun(w, es)
    ensures
      var v := Run(w, es);
      v.s.shuttingDown && v.draining == {} ==> !Suspended(v.s.os, pid) && forall k :: !Held(v.s, k)
  {
    InitialHasInv(w);
    RunKeepsInv(w, es);
  }

  /** Admission: never more than the limit of running and cancelling jobs, and none under maintenance. */
  lemma CapacityHolds(w: World, es: seq<Event>)
    requires Initial(w) && ProperRun(w, es)
    ensures
      var s := Run(w, es).s;
      && (s.limit.Some? ==> |ActiveKeys(s.jobs)| <= s.limit.value)
      && (s.maintenance.Some? ==> ActiveKeys(s.jobs) == {})
  {
    InitialHasInv(w);
    RunKeepsInv(w, es);
  }

  /** Only a release that carries the token lifts the fence; nothing replaces it. */
  lemma OnlyTokenLiftsFence(w: World, e: Event)
    requires w.s.maintenance.Some? && Apply(w, e).s.maintenance != w.s.maintenance
    ensures e == TryRelease(w.s.maintenance) && Apply(w, e).s.maintenance.None?
  {
  }

  /** Resuming undoes a pause completely: the job, the process and the set of stopped keys are as before. */
  lemma ResumeUndoesPause(w: World, es: seq<Event>, k: Key, expected: Option<nat>)
    requires Initial(w) && ProperRun(w, es)
    ensures
      var s := Run(w, es).s;
      var (t, code) := Pause(s, k, expected);
      code.IsPaused? || code.IsPausing? ==> Resume(t, k, expected) == (s, IsResumed)
  {
    InitialHasInv(w);
    RunKeepsInv(w, es);
    var v := Run(w, es);
    if k in v.s.jobs {
      assert Coherent(v.s.jobs[k]);
      if Pause(v.s, k, expected).1.IsPaused? {
        assert !Suspended(v.s.os, v.s.processes[k]);
      }
      hide Inv, Run, Initial, ProperRun;
      PauseThenResume(v.s, k, expected);
    }
  }

  lemma PauseThenResume(s: State, k: Key, expected: Option<nat>)
    requires k in s.jobs && Coherent(s.jobs[k])
    requires k in s.stopped ==> PausedByProcess(s.jobs[k])
    requires Pause(s, k, expected).1.IsPaused? ==> !Suspended(s.os, s.processes[k])
    ensures
      var (t, code) := Pause(s, k, expected);
      code.IsPaused? || code.IsPausing? ==> Resume(t, k, expected) == (s, IsResumed)
  {
    var (t, code) := Pause(s, k, expected);
    if code.IsPaused? || code.IsPausing? {
      var r := Resume(t, k, expected).0;
      assert k !in s.stopped;
      assert r.jobs == s.jobs;
      assert r.stopped == s.stopped;
      if code.IsPaused? {
        StopThenContinue(s.os, s.processes[k]);
      }
    }
  }

  lemma StopThenContinue(os: Table, pid: Pid)
    requires !Suspended(os, pid)
    ensures Send(Send(os, pid, Stop), pid, Cont) == os
  {
  }

  /** A pause that arrives before its process is registered still suspends it, if it can be suspended. */
  lemma LateProcessIsStopped(w: World, es: seq<Event>, k: Key, pid: Pid)
    requires Initial(w) && ProperRun(w, es) && Proper(Run(w, es), TryAttach(k, pid))
    ensures
      var v := Run(w, es);
      var t := Attach(v.s, k, pid);
      k in v.s.jobs && v.s.jobs[k].pauseRequested && v.s.posix && t.1
      && Alive(v.s.os, pid) && v.s.os[pid].pausable && v.s.os[pid].permitted ==>
        Suspended(t.0.os, pid) && k in t.0.stopped && PausedByProcess(t.0.jobs[k])
  {
    InitialHasInv(w);
    RunKeepsInv(w, es);
    var v := Run(w, es);
    if k in v.s.jobs {
      assert Coherent(v.s.jobs[k]);
    }
  }

  // ---------------------------------------------------------------- waiting at a checkpoint

  /** What can let a held workflow go. */
  predicate LetsGo(s: State, k: Key, e: Event) {
    match e
    case TryResume(l, expected) => l == k && Resume(s, k, expected).1.IsResumed?
    case TryCancel(l, expected) => l == k && Cancel(s, k, expected).1
    case DoComplete(l, _) => l == k
    case DoClearIfDisconnected(l) => l == k && k in s.jobs && s.jobs[k].disconnected
    case DoShutdown => true
    case _ => false
  }

  /**
   A held workflow is let go exactly by an accepted resume or cancel of its job, by its completion, by a
   shutdown, or by forgetting the job of a browser that left; no other step does, by whomever.
   */
  lemma HeldUntilLetGo(w: World, e: Event, k: Key)
    requires Held(w.s, k)
    ensures Held(Apply(w, e).s, k) <==> !LetsGo(w.s, k, e)
  {
    hide Send, Terminate, ActiveKeys;
  }

  /** What the others do during the first `n` waits. */
  function Waited(w: World, between: seq<seq<Event>>, n: nat): World
    requires n <= |between|
  {
    if n == 0 then w else Run(Waited(w, between, n - 1), between[n - 1])
  }

  /** `wait_if_paused`: announce a pause that takes effect here, then wait, round by round, while the job is held. */
  method WaitIfPaused(w: World, k: Key, meanwhile: seq<Event>, between: seq<seq<Event>>)
    returns (announce: bool, waits: nat, returned: bool)
    ensures announce == Checkpoint(w.s, k).1
    ensures waits <= |between|
    ensures
      var first := Run(Apply(w, AtCheck(k)), meanwhile);
      && (forall i | 0 <= i < waits :: Held(Waited(first, between, i).s, k))
      && (if returned then !Held(Waited(first, between, waits).s, k) else waits == |between|)
  {
    hide Held, Checkpoint;
    announce := Checkpoint(w.s, k).1;
    ghost var first := Run(Apply(w, AtCheck(k)), meanwhile);
    var here := Run(Apply(w, AtCheck(k)), meanwhile);
    waits, returned := 0, false;
    while Held(here.s, k)
      invariant waits <= |between| && here == Waited(first, between, waits)
      invariant forall i | 0 <= i < waits :: Held(Waited(first, between, i).s, k)
      decreases |between| - waits
    {
      if waits == |between| {
        return;
      }
      here := Run(here, between[waits]);
      waits := waits + 1;
    }
    returned := true;
  }
}
