/** The operating system's view of scan process groups, and the signals the registry sends them. */
module Processes {

  type Pid = nat

  /** A zombie has exited but can still be signalled; it is forgotten once it is reaped. */
  datatype Life = Live | Zombie

  /**
   `permitted`: this user may signal the group. `pausable`: the command is not `sudo`. `told`: it was sent
   SIGTERM while awake, so that it can act on it.
   */
  datatype Proc = Proc(life: Life, stopped: bool, permitted: bool, pausable: bool, told: bool)

  datatype Signal = Stop | Cont | Term | Kill

  type Table = map<Pid, Proc>

  predicate Alive(os: Table, pid: Pid) {
    pid in os && os[pid].life.Live?
  }

  /** A scan that is still there but suspended. */
  predicate Suspended(os: Table, pid: Pid) {
    Alive(os, pid) && os[pid].stopped
  }

  predicate Deliverable(os: Table, pid: Pid) {
    pid in os && os[pid].permitted
  }

  /** `_send_scan_signal` (and the last step of `_signal_scan_process`): the table after one signal. */
  function Send(os: Table, pid: Pid, sig: Signal): Table {
    if !Deliverable(os, pid) || !Alive(os, pid) then os else
    match sig
    case Stop => os[pid := os[pid].(stopped := true)]
    case Cont => os[pid := os[pid].(stopped := false)]
    case Term => os[pid := os[pid].(told := os[pid].told || !os[pid].stopped)]
    case Kill => os[pid := os[pid].(life := Zombie, stopped := false)]
  }

  /** `_signal_scan_process`: a suspended group acts on SIGTERM only once it has been woken. */
  function Terminate(os: Table, pid: Pid, sig: Signal): Table {
    Send(Send(os, pid, Cont), pid, sig)
  }
}
