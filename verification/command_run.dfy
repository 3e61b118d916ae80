/**
 Running one command that can be paused and cancelled: the polling loop with its timeout, and the clean-up
 that ends the command's process group before the registry forgets it.
 */
module CommandRun {
  import opened Wrappers
  import opened Processes
  import opened Registry
  import opened RegistrySafety

  /** What one poll finds: has the command exited, and if not, the clock, and the registry's answers. */
  datatype Poll = Poll(exited: bool, now: int, stopped: bool, cancelled: bool)

  datatype Outcome = Finished | Stopped | TimedOut | StillRunning

  function Before(polls: seq<Poll>, started: int, n: nat): int
    requires n <= |polls|
  {
    if n == 0 then started else polls[n - 1].now
  }

  /** The time in the first `n` polling intervals, those at whose end the process is stopped left out. */
  function RunningTime(polls: seq<Poll>, started: int, n: nat): int
    requires n <= |polls|
  {
    if n == 0 then 0
    else RunningTime(polls, started, n - 1)
         + if polls[n - 1].stopped then 0 else polls[n - 1].now - Before(polls, started, n - 1)
  }

  /** How the command ends at a poll, if it does. */
  function EndAt(polls: seq<Poll>, started: int, timeout: Option<int>, i: nat): Option<Outcome>
    requires i < |polls|
  {
    if polls[i].exited then Some(if polls[i].cancelled then Stopped else Finished)
    else if timeout.Some? && RunningTime(polls, started, i + 1) > timeout.value then Some(TimedOut)
    else if polls[i].cancelled then Some(Stopped)
    else None
  }

  /** Neither an exit, nor a cancellation, nor too much running time by poll `i`. */
  predicate GoesOn(polls: seq<Poll>, started: int, timeout: Option<int>, i: nat)
    requires i < |polls|
  {
    !polls[i].exited && !polls[i].cancelled && (timeout.Some? ==> RunningTime(polls, started, i + 1) <= timeout.value)
  }

  /** The loop of `run_cancellable_command`, over the polls until the command ends. */
  method RunCommand(polls: seq<Poll>, started: int, timeout: Option<int>) returns (outcome: Outcome, at: nat)
    ensures at <= |polls| && forall i | 0 <= i < at :: EndAt(polls, started, timeout, i).None?
    ensures if outcome.StillRunning? then at == |polls|
            else at < |polls| && EndAt(polls, started, timeout, at) == Some(outcome)
    ensures forall i | 0 <= i < at :: GoesOn(polls, started, timeout, i)
    ensures outcome.Finished? ==> polls[at].exited && !polls[at].cancelled
    ensures outcome.TimedOut? ==>
      !polls[at].exited && timeout.Some? && RunningTime(polls, started, at + 1) > timeout.value
    ensures outcome.Stopped? ==>
      && polls[at].cancelled
      && (polls[at].exited || timeout.None? || RunningTime(polls, started, at + 1) <= timeout.value)
  {
    var pausedTotal, lastTick := 0, started;
    for i := 0 to |polls|
      invariant lastTick == Before(polls, started, i)
      invariant lastTick - started - pausedTotal == RunningTime(polls, started, i)
      invariant forall k | 0 <= k < i :: EndAt(polls, started, timeout, k).None?
      invariant forall k | 0 <= k < i :: GoesOn(polls, started, timeout, k)
    {
      var poll := polls[i];
      if poll.exited {
        return if poll.cancelled then Stopped else Finished, i;
      }
      if poll.stopped {
        pausedTotal := pausedTotal + (poll.now - lastTick);
      }
      lastTick := poll.now;
      if timeout.Some? && poll.now - started - pausedTotal > timeout.value {
        return TimedOut, i;
      }
      if poll.cancelled {
        return Stopped, i;
      }
    }
    return StillRunning, |polls|;
  }

  /** The same polls, except that pauses may have taken another time. */
  ghost predicate SameButForPauses(p: seq<Poll>, from: int, q: seq<Poll>, start: int) {
    && |p| == |q|
    && forall i | 0 <= i < |p| ::
      && p[i].exited == q[i].exited && p[i].stopped == q[i].stopped && p[i].cancelled == q[i].cancelled
      && (p[i].stopped || p[i].now - Before(p, from, i) == q[i].now - Before(q, start, i))
  }

  lemma {:induction false} SameRunningTime(p: seq<Poll>, from: int, q: seq<Poll>, start: int, n: nat)
    requires SameButForPauses(p, from, q, start) && n <= |p|
    ensures RunningTime(p, from, n) == RunningTime(q, start, n)
  {
    if n > 0 {
      SameRunningTime(p, from, q, start, n - 1);
    }
  }

  /** However long the pauses last, the command ends at the same poll and in the same way. */
  lemma PausedTimeIsFree(p: seq<Poll>, from: int, q: seq<Poll>, start: int, timeout: Option<int>, i: nat)
    requires SameButForPauses(p, from, q, start) && i < |p|
    ensures EndAt(p, from, timeout, i) == EndAt(q, start, timeout, i)
  {
    SameRunningTime(p, from, q, start, i + 1);
  }

  // ---------------------------------------------------------------- the clean-up

  /** The `finally` block: SIGTERM, a wait in which the group may go, SIGKILL for what is left of it. */
  method CleanUp(os: OperatingSystem, pid: Pid, goes: bool)
    modifies os
    ensures os.table == CleanedUp(old(os.table), pid, goes)
  {
    if pid in os.table {
      os.SignalScanProcess(pid, Term);
      if goes {
        os.table := os.table - {pid};
      }
      if pid in os.table {
        os.SignalScanProcess(pid, Kill);
      }
    }
  }

  function CleanedUp(os: Table, pid: Pid, goes: bool): Table {
    if pid !in os then os
    else
      var told := Terminate(os, pid, Term);
      if goes then told - {pid} else Terminate(told, pid, Kill)
  }

  /** A group the clean-up may signal is dead after it, and no other process is touched. */
  lemma CleanUpEndsGroup(os: Table, pid: Pid, goes: bool)
    ensures Alive(CleanedUp(os, pid, goes), pid) ==> !CleanedUp(os, pid, goes)[pid].permitted
    ensures pid in os && os[pid].permitted ==> !Alive(CleanedUp(os, pid, goes), pid)
    ensures Alive(os, pid) && os[pid].permitted && !goes ==> CleanedUp(os, pid, goes)[pid].told
    ensures pid in os && goes ==> pid !in CleanedUp(os, pid, goes)
    ensures forall p | p != pid :: p in CleanedUp(os, pid, goes) <==> p in os
    ensures forall p | p != pid && p in os :: CleanedUp(os, pid, goes)[p] == os[p]
  {
  }

  /** The clean-up as steps of the world: two signals, or a signal and the end of the group. */
  function CleanUpSteps(w: World, pid: Pid, goes: bool): seq<Event> {
    if pid !in w.s.os then []
    else if goes then [WorkerSignal(pid, Term), Exit(pid), Reap(pid)]
    else [WorkerSignal(pid, Term), WorkerSignal(pid, Kill)]
  }

  /** Dead, or not to be signalled by this user. */
  predicate Quiet(os: Table, pid: Pid) {
    !Alive(os, pid) || !os[pid].permitted
  }

  /** The process a key tracks is dead, or this user may not signal it, so it can never be suspended. */
  ghost predicate Settled(w: World, k: Key) {
    k in w.s.processes ==> Quiet(w.s.os, w.s.processes[k])
  }

  /** The clean-up is such steps, whatever the group does, and settles the key that tracks the process. */
  lemma CleanUpSettles(w: World, k: Key, goes: bool)
    requires Inv(w) && k in w.s.processes
    ensures
      var pid := w.s.processes[k];
      var es := CleanUpSteps(w, pid, goes);
      && ProperRun(w, es) && Run(w, es) == w.(s := w.s.(os := CleanedUp(w.s.os, pid, goes)))
      && Settled(Run(w, es), k)
  {
    hide Inv, Terminate, Send;
    var pid := w.s.processes[k];
    CleanUpEndsGroup(w.s.os, pid, goes);
    if pid in w.s.os {
      KeepsEntry(w.s.os, pid);
      var told := Apply(w, WorkerSignal(pid, Term));
      if goes {
        ExitThenReap(told, pid);
        ThreeSteps(w, WorkerSignal(pid, Term), Exit(pid), Reap(pid));
      } else {
        TwoSteps(w, WorkerSignal(pid, Term), WorkerSignal(pid, Kill));
      }
    }
  }

  lemma KeepsEntry(os: Table, pid: Pid)
    requires pid in os
    ensures pid in Terminate(os, pid, Term)
  {
  }

  lemma TwoSteps(w: World, a: Event, b: Event)
    ensures ProperRun(w, [a, b]) <==> Proper(w, a) && Proper(Apply(w, a), b)
    ensures Run(w, [a, b]) == Apply(Apply(w, a), b)
  {
    hide Apply, Proper;
    assert [a, b][1..] == [b] && [b][1..] == [];
    assert ProperRun(Apply(w, a), [b]) <==> Proper(Apply(w, a), b);
    assert Run(Apply(w, a), [b]) == Apply(Apply(w, a), b);
  }

  lemma ThreeSteps(w: World, a: Event, b: Event, c: Event)
    ensures ProperRun(w, [a, b, c]) <==>
      Proper(w, a) && Proper(Apply(w, a), b) && Proper(Apply(Apply(w, a), b), c)
    ensures Run(w, [a, b, c]) == Apply(Apply(Apply(w, a), b), c)
  {
    hide Apply, Proper;
    assert [a, b, c][1..] == [b, c];
    TwoSteps(Apply(w, a), b, c);
  }

  lemma ExitThenReap(w: World, pid: Pid)
    requires pid in w.s.os
    ensures
      var gone := Apply(w, Exit(pid));
      Proper(gone, Reap(pid)) && Apply(gone, Reap(pid)) == w.(s := w.s.(os := w.s.os - {pid}))
  {
    assert Apply(w, Exit(pid)).s.os - {pid} == w.s.os - {pid};
  }

  lemma TrackedBefore(w: World, e: Event, k: Key)
    requires !(e.TryAttach? && e.k == k) && k in Apply(w, e).s.processes
    ensures k in w.s.processes && w.s.processes[k] == Apply(w, e).s.processes[k]
  {
    if JobStep(e) {
      hide Apply;
      JobStepTouches(w, e);
    } else if ProcessStep(e) {
      hide Send, Stoppable, Active;
    } else {
      SystemStepTouches(w, e);
      hide Apply;
    }
  }

  lemma SignalsKeepQuiet(os: Table, pid: Pid, to: Pid, sig: Signal)
    requires Quiet(os, pid)
    ensures Quiet(Send(os, to, sig), pid) && Quiet(Terminate(os, to, sig), pid)
  {
  }

  lemma JobStepKeepsQuiet(w: World, e: Event, pid: Pid)
    requires JobStep(e) && Quiet(w.s.os, pid)
    ensures Quiet(Apply(w, e).s.os, pid)
  {
    hide Quiet, Send, Terminate, Matches, Unpaused, StartRefusal;
    if e.k in w.s.processes {
      var to := w.s.processes[e.k];
      SignalsKeepQuiet(w.s.os, pid, to, Stop);
      SignalsKeepQuiet(w.s.os, pid, to, Cont);
      SignalsKeepQuiet(w.s.os, pid, to, Term);
      SignalsKeepQuiet(Send(w.s.os, to, Cont), pid, to, Term);
    }
  }

  /** No step revives a tracked process, or lets this user signal one that it could not. */
  lemma NeverRevived(w: World, e: Event, k: Key)
    requires Proper(w, e) && k in w.s.processes && Quiet(w.s.os, w.s.processes[k])
    ensures Quiet(Apply(w, e).s.os, w.s.processes[k])
  {
    var pid := w.s.processes[k];
    assert pid in w.s.processes.Values;
    if JobStep(e) {
      JobStepKeepsQuiet(w, e, pid);
    } else if ProcessStep(e) {
      if e.TryAttach? {
        SignalsKeepQuiet(w.s.os, pid, e.pid, Stop);
      }
      hide Quiet, Send, Stoppable, Active;
    } else {
      if e.Drain? || e.WorkerSignal? {
        SignalsKeepQuiet(w.s.os, pid, e.pid, if e.Drain? then Term else e.sig);
      }
      hide Send, Terminate, ActiveKeys;
    }
  }

  lemma SettledStaysSettled(w: World, e: Event, k: Key)
    requires Proper(w, e) && Settled(w, k) && !(e.TryAttach? && e.k == k)
    ensures Settled(Apply(w, e), k)
  {
    hide Apply, Proper;
    if k in Apply(w, e).s.processes {
      TrackedBefore(w, e, k);
      NeverRevived(w, e, k);
    }
  }

  lemma {:induction false} RunStaysSettled(w: World, es: seq<Event>, k: Key)
    requires Inv(w) && ProperRun(w, es) && Settled(w, k)
    requires forall i | 0 <= i < |es| :: !(es[i].TryAttach? && es[i].k == k)
    ensures Inv(Run(w, es)) && Settled(Run(w, es), k)
    decreases |es|
  {
    if es != [] {
      SettledStaysSettled(w, es[0], k);
      StepKeepsInv(w, es[0]);
      hide Inv, Apply, Proper, Settled;
      RunStaysSettled(Apply(w, es[0]), es[1..], k);
    }
  }

  /**
   After the clean-up, and whatever the registry, its other callers and other processes do until the
   worker forgets its process, forgetting is proper: the process is dead, or it is one that this user
   may not signal, such as a `sudo` scan that refuses SIGKILL, and so is not suspended.
   */
  lemma ForgettingAfterCleanUpIsProper(w: World, k: Key, goes: bool, es: seq<Event>)
    requires Inv(w) && k in w.s.processes
    requires
      var v := Run(w, CleanUpSteps(w, w.s.processes[k], goes));
      ProperRun(v, es) && forall i | 0 <= i < |es| :: !(es[i].TryAttach? && es[i].k == k)
    ensures
      var v := Run(w, CleanUpSteps(w, w.s.processes[k], goes));
      Proper(Run(v, es), DoClear(k)) && Settled(Run(v, es), k)
  {
    var steps := CleanUpSteps(w, w.s.processes[k], goes);
    CleanUpSettles(w, k, goes);
    RunKeepsInv(w, steps);
    var v := Run(w, steps);
    RunStaysSettled(v, es, k);
    SettledIsNotSuspended(Run(v, es), k);
  }

  lemma SettledIsNotSuspended(w: World, k: Key)
    requires Inv(w) && Settled(w, k)
    ensures Proper(w, DoClear(k))
  {
  }
}
