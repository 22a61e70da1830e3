/**
 The lease-guarded PID-1 wrapper: its configuration check and, as a timed transition system, any
 number of pods that run it against one Lease.

 Each pod has the leading callback, the signal handler and the reaper as separate goroutines over
 the runner's fields.  Time is a global clock; the wrapper's own steps take no time, so the clock
 may only advance while every goroutine is waiting, and never past a pending timer.

 Contract of the elector, whose code is not part of this model:
   - it reports loss of leadership no later than RenewDeadline after its last renewal;
   - another pod takes an unreleased lease no earlier than LeaseDuration after that renewal;
   - it gives the lease up early only once the context it was started with has been cancelled;
   - its Run returns no earlier than the loss or the cancel.  Nothing says that it waits for the
     leading callback, so it may return at any moment from then on; the process then ends with the
     exit code read at that moment.
 A pod whose Run has returned goes on taking steps here, which only adds runs to those of a process
 that is gone.
 */
module LeaderElect {
  import opened Wrappers

  // ---------------------------------------------------------------- configuration

  const EXIT_OK := 0
  const EXIT_CONFIG := 1
  const EXIT_LOST := 2

  const SECOND := 1_000_000_000
  const DEFAULT_SHUTDOWN_GRACE := 25 * SECOND
  const CHILD_SIGKILL_WAIT := 5 * SECOND
  const LEASE_RELEASE_MARGIN := 10 * SECOND

  /** Durations are nanoseconds. */
  datatype Config = Config(leaseName: string, leaseDuration: int, renewDeadline: int, retryPeriod: int,
                           shutdownGrace: int, lostGrace: int, command: seq<string>)

  const DEFAULTS := Config("lease", 20 * SECOND, 10 * SECOND, 3 * SECOND, DEFAULT_SHUTDOWN_GRACE, 8 * SECOND, ["node"])

  datatype ConfigError = LeaseNameRequired | CommandRequired | LeaseTooShort | LostGraceTooLong |
                         RetryNotPositive | RenewTooShort

  /** client-go's jitter factor 1.2, in exact arithmetic with the conversion's truncation. */
  function MinRenew(retryPeriod: int): int {
    retryPeriod * 12 / 10
  }

  function Validate(c: Config): Option<ConfigError> {
    var maxLost := c.leaseDuration - c.renewDeadline;
    if c.leaseName == "" then Some(LeaseNameRequired)
    else if c.command == [] then Some(CommandRequired)
    else if maxLost <= 0 then Some(LeaseTooShort)
    else if c.lostGrace >= maxLost then Some(LostGraceTooLong)
    else if c.retryPeriod <= 0 then Some(RetryNotPositive)
    else if c.renewDeadline <= MinRenew(c.retryPeriod) then Some(RenewTooShort)
    else None
  }

  /** Whole seconds, as time.Duration division truncates. */
  function RecommendedTerminationGracePeriod(shutdownGrace: int): int {
    var grace := if shutdownGrace <= 0 then DEFAULT_SHUTDOWN_GRACE else shutdownGrace;
    (grace + CHILD_SIGKILL_WAIT + LEASE_RELEASE_MARGIN) / SECOND
  }

  // ---------------------------------------------------------------- one pod

  /** Inside stopChild: about to read the PID, about to send SIGTERM, in the grace, in the kill wait. */
  datatype StopPc = Read(grace: int) | Term(grace: int) | Grace(deadline: int) | KillWait(deadline: int)

  /** The leading callback. */
  datatype CallbackPc =
    | Idle
    | Spawn
    | Publish
    | StopEarly(stop: StopPc)      // the publish found termRequested already set
    | Select                       // child exit or leadership loss
    | CheckExit                    // the child exited; reads termRequested
    | CheckLost                    // leadership was lost; reads termRequested
    | AwaitStop(deadline: int)     // the signal path owns the teardown
    | StopLost(stop: StopPc)
    | ForceLost
    | AwaitLost(deadline: int)
    | Finished

  /** The signal goroutine of Run. */
  datatype HandlerPc = Listening | Stop(stop: StopPc) | ForceOk | Cancel | Returned

  datatype Child = NotStarted | Running | Reaped

  /**
   One pod.  `acquired`, `lastRenew` and `lossReported` belong to its elector; `cancelled` is the
   context given to the elector; `killedAt` is when the child's group was first sent SIGKILL;
   `signalledAt` is when its shutdown signal arrived and `sawPid` whether the handler's stopChild
   then read a published PID; `returned` is the exit code read when the elector's Run returned.
   */
  datatype Pod = Pod(acquired: bool, lastRenew: int, lossReported: bool, cancelled: bool,
                     child: Child, childCode: int, termSent: bool, killedAt: Option<int>,
                     published: bool, termRequested: bool, signalledAt: Option<int>, sawPid: bool,
                     exit: Option<int>, callback: CallbackPc, handler: HandlerPc, returned: Option<int>)

  const FRESH_POD := Pod(false, 0, false, false, NotStarted, 0, false, None, false, false, None, false,
                        None, Idle, Listening, None)

  /** The context handed to the leading callback is done. */
  predicate LeadDone(p: Pod) {
    p.lossReported || p.cancelled
  }

  function SetExit(p: Pod, code: int): Pod {
    if p.exit.None? then p.(exit := Some(code)) else p
  }

  function ForceExit(p: Pod, code: int): Pod {
    p.(exit := Some(code))
  }

  function GetExit(p: Pod): int {
    if p.exit.None? then EXIT_OK else p.exit.value
  }

  /** Where a step leaves stopChild: at a new position inside it, or back in its caller. */
  datatype StopMove = StopMove(pod: Pod, next: Option<StopPc>)

  /**
   One step of stopChild.  `viaDone` picks the branch of a select whose child-exit case is ready;
   the timer case is ready once its deadline has come.
   */
  function StopStep(now: int, p: Pod, stop: StopPc, viaDone: bool): Option<StopMove> {
    match stop
    case Read(grace) =>
      Some(StopMove(p.(termRequested := true), if p.published then Some(Term(grace)) else None))
    case Term(grace) => Some(StopMove(p.(termSent := true), Some(Grace(now + grace))))
    case Grace(deadline) =>
      if viaDone then (if p.child.Reaped? then Some(StopMove(p, None)) else None)
      else if now >= deadline then
        var killed := if p.killedAt.None? then Some(now) else p.killedAt;
        Some(StopMove(p.(killedAt := killed), Some(KillWait(now + CHILD_SIGKILL_WAIT))))
      else None
    case KillWait(deadline) =>
      if viaDone then (if p.child.Reaped? then Some(StopMove(p, None)) else None)
      else if now >= deadline then Some(StopMove(p, None))
      else None
  }

  /** One step of onStartedLeading; `ok` is the outcome of a spawn or the branch of a select. */
  function CallbackStep(cfg: Config, now: int, p: Pod, ok: bool): Option<Pod> {
    match p.callback
    case Idle => None
    case Spawn =>
      Some(if ok then p.(child := Running, callback := Publish)
           else SetExit(p, EXIT_CONFIG).(cancelled := true, callback := Finished))
    case Publish =>
      Some(p.(published := true, callback := if p.termRequested then StopEarly(Read(cfg.shutdownGrace)) else Select))
    case StopEarly(stop) =>
      var m := StopStep(now, p, stop, ok);
      if m.None? then None
      else Some(m.value.pod.(callback := if m.value.next.Some? then StopEarly(m.value.next.value) else Finished))
    case Select =>
      if ok then (if p.child.Reaped? then Some(p.(callback := CheckExit)) else None)
      else if LeadDone(p) then Some(p.(callback := CheckLost))
      else None
    case CheckExit =>
      Some(if p.termRequested then p.(callback := Finished)
           else SetExit(p, p.childCode).(cancelled := true, callback := Finished))
    case CheckLost =>
      Some(if p.termRequested then p.(callback := AwaitStop(now + cfg.shutdownGrace + CHILD_SIGKILL_WAIT))
           else p.(callback := StopLost(Read(cfg.lostGrace))))
    case AwaitStop(deadline) => if p.child.Reaped? || now >= deadline then Some(p.(callback := Finished)) else None
    case StopLost(stop) =>
      var m := StopStep(now, p, stop, ok);
      if m.None? then None
      else Some(m.value.pod.(callback := if m.value.next.Some? then StopLost(m.value.next.value) else ForceLost))
    case ForceLost =>
      Some(ForceExit(p, EXIT_LOST).(callback := AwaitLost(now + cfg.lostGrace + CHILD_SIGKILL_WAIT)))
    case AwaitLost(deadline) => if p.child.Reaped? || now >= deadline then Some(p.(callback := Finished)) else None
    case Finished => None
  }

  /** One step of the signal goroutine. */
  function HandlerStep(now: int, p: Pod, viaDone: bool): Option<Pod> {
    match p.handler
    case Listening => None
    case Stop(stop) =>
      var m := StopStep(now, p, stop, viaDone);
      if m.None? then None
      else Some(m.value.pod.(handler := if m.value.next.Some? then Stop(m.value.next.value) else ForceOk,
                             sawPid := if stop.Read? then p.published else p.sawPid))
    case ForceOk => Some(ForceExit(p, EXIT_OK).(handler := Cancel))
    case Cancel => Some(p.(cancelled := true, handler := Returned))
    case Returned => None
  }

  // ---------------------------------------------------------------- time

  /** A stopChild that does not wait, or waits for something that has happened. */
  predicate StopUrgent(p: Pod, stop: StopPc) {
    stop.Read? || stop.Term? || p.child.Reaped?
  }

  predicate StopAllows(stop: StopPc, time: int) {
    match stop
    case Grace(d) => time <= d
    case KillWait(d) => time <= d
    case _ => false
  }

  predicate HandlerAllows(p: Pod, time: int) {
    match p.handler
    case Stop(stop) => !StopUrgent(p, stop) && StopAllows(stop, time)
    case Listening => true
    case Returned => true
    case _ => false
  }

  predicate CallbackAllows(p: Pod, time: int) {
    match p.callback
    case Idle => true
    case Finished => true
    case Select => !p.child.Reaped? && !LeadDone(p)
    case AwaitStop(d) => !p.child.Reaped? && time <= d
    case AwaitLost(d) => !p.child.Reaped? && time <= d
    case StopEarly(stop) => !StopUrgent(p, stop) && StopAllows(stop, time)
    case StopLost(stop) => !StopUrgent(p, stop) && StopAllows(stop, time)
    case _ => false
  }

  /** The clock may reach `time`: the pod has nothing to do before, and its elector reports loss in time. */
  predicate PodAllows(cfg: Config, p: Pod, time: int) {
    && HandlerAllows(p, time) && CallbackAllows(p, time)
    && (p.acquired && !LeadDone(p) ==> time <= p.lastRenew + cfg.renewDeadline)
  }

  // ---------------------------------------------------------------- the system

  /** `holder` is the pod the Lease names, until another takes it or it is released. */
  datatype System = System(now: int, holder: Option<nat>, pods: seq<Pod>)

  /** When shutdown signals may arrive. */
  datatype Signals = Never | AfterPublish | AnyTime

  datatype Step =
    | Tick(d: int)
    | Acquire(pod: nat)
    | Renew(pod: nat)
    | ReportLoss(pod: nat)
    | Release(pod: nat)
    | Signal(pod: nat)
    | ChildExits(pod: nat, code: int)
    | Callback(pod: nat, ok: bool)
    | Handler(pod: nat, viaDone: bool)
    | ElectorReturns(pod: nat)

  function InitialSystem(n: nat): System {
    System(0, None, seq(n, _ => FRESH_POD))
  }

  function SetPod(s: System, i: nat, p: Pod): System
    requires i < |s.pods|
  {
    s.(pods := s.pods[i := p])
  }

  /** The Lease is free, or its record has been left unrenewed for LeaseDuration. */
  predicate LeaseOpen(cfg: Config, s: System) {
    s.holder.None? || (s.holder.value < |s.pods| && s.now >= s.pods[s.holder.value].lastRenew + cfg.leaseDuration)
  }

  predicate SignalAllowed(mode: Signals, p: Pod) {
    match mode
    case Never => false
    case AfterPublish => p.published
    case AnyTime => true
  }

  function PodOf(step: Step): nat {
    match step
    case Tick(_) => 0
    case Acquire(i) => i
    case Renew(i) => i
    case ReportLoss(i) => i
    case Release(i) => i
    case Signal(i) => i
    case ChildExits(i, _) => i
    case Callback(i, _) => i
    case Handler(i, _) => i
    case ElectorReturns(i) => i
  }

  /** The effect of a step on its own pod; None when it is not enabled. */
  function PodStep(cfg: Config, mode: Signals, s: System, p: Pod, step: Step): Option<Pod> {
    match step
    case Tick(_) => None
    case Acquire(i) =>
      if !p.acquired && !p.cancelled && LeaseOpen(cfg, s)
      then Some(p.(acquired := true, lastRenew := s.now, callback := Spawn)) else None
    case Renew(i) => if s.holder == Some(i) && !LeadDone(p) then Some(p.(lastRenew := s.now)) else None
    case ReportLoss(i) => if p.acquired && !LeadDone(p) then Some(p.(lossReported := true)) else None
    case Release(i) => if s.holder == Some(i) && p.cancelled then Some(p) else None
    case Signal(i) =>
      if p.handler.Listening? && SignalAllowed(mode, p)
      then Some(p.(handler := Stop(Read(cfg.shutdownGrace)), signalledAt := Some(s.now))) else None
    case ChildExits(i, code) => if p.child.Running? then Some(p.(child := Reaped, childCode := code)) else None
    case Callback(i, ok) => CallbackStep(cfg, s.now, p, ok)
    case Handler(i, viaDone) => HandlerStep(s.now, p, viaDone)
    case ElectorReturns(i) =>
      if LeadDone(p) && p.returned.None? then Some(p.(returned := Some(GetExit(p)))) else None
  }

  function Apply(cfg: Config, mode: Signals, s: System, step: Step): Option<System> {
    if step.Tick? then
      if step.d > 0 && forall i :: 0 <= i < |s.pods| ==> PodAllows(cfg, s.pods[i], s.now + step.d)
      then Some(s.(now := s.now + step.d)) else None
    else
      var i := PodOf(step);
      if i >= |s.pods| then None
      else
        match PodStep(cfg, mode, s, s.pods[i], step)
        case None => None
        case Some(p) =>
          var s' := SetPod(s, i, p);
          Some(if step.Acquire? then s'.(holder := Some(i)) else if step.Release? then s'.(holder := None) else s')
  }

  function RunAll(cfg: Config, mode: Signals, s: System, steps: seq<Step>): Option<System>
    decreases steps
  {
    if steps == [] then Some(s)
    else
      match Apply(cfg, mode, s, steps[0])
      case None => None
      case Some(s') => RunAll(cfg, mode, s', steps[1..])
  }

  ghost predicate Reachable(cfg: Config, mode: Signals, s: System) {
    exists n: nat, steps: seq<Step> :: RunAll(cfg, mode, InitialSystem(n), steps) == Some(s)
  }

  /** The pod's child runs and its group has not been sent SIGKILL. */
  predicate LiveChild(p: Pod) {
    p.child.Running? && p.killedAt.None?
  }

  /** At most one pod has a live child. */
  predicate Exclusive(s: System) {
    forall i, j :: 0 <= i < |s.pods| && 0 <= j < |s.pods| && LiveChild(s.pods[i]) && LiveChild(s.pods[j]) ==> i == j
  }
}
