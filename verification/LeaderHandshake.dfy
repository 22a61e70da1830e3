/**
 The stop handshake between the signal handler and the leading callback, in every interleaving and
 with signals at any time, and how long a shutdown takes.
 */
module LeaderHandshake {
  import opened Wrappers
  import opened LeaderElect
  import opened LeaderSafety

  /** Some stopChild has read the published PID, or is bound to, and has yet to send SIGTERM. */
  predicate AboutToSignal(p: Pod) {
    || (p.handler.Stop? && p.handler.stop.Term?)
    || (p.callback.StopEarly? && (p.callback.stop.Read? || p.callback.stop.Term?))
    || (p.callback.StopLost? && p.callback.stop.Term?)
  }

  /** The child is down, or its group was sent SIGKILL and the kill wait is over. */
  predicate StoppedBy(p: Pod, time: int) {
    p.child.Reaped? || (p.killedAt.Some? && p.killedAt.value + CHILD_SIGKILL_WAIT <= time)
  }

  predicate Positions(p: Pod) {
    && (p.callback.Idle? || p.callback.Spawn? || p.callback.Publish? ==> !p.published)
    && (p.callback.Select? || p.callback.CheckExit? || p.callback.CheckLost? ==> p.published)
    && (p.callback.StopLost? || p.callback.StopEarly? ==> p.published)
    && (p.callback.CheckExit? ==> p.child.Reaped?)
    && (p.callback.Idle? || p.callback.Spawn? <==> p.child.NotStarted? && !p.callback.Finished?)
    && (p.published ==> !p.child.NotStarted?)
    && (p.sawPid ==> p.published)
    && (!p.acquired ==> p.callback.Idle?)
  }

  /** Where the handler is, how long after the signal, and what it has done to the child by then. */
  predicate HandlerOk(cfg: Config, now: int, p: Pod) {
    && (p.handler.Listening? <==> p.signalledAt.None?)
    && match p.handler
       case Listening => !p.sawPid
       case Stop(Read(g)) => g == cfg.shutdownGrace && now == p.signalledAt.value && !p.sawPid
       case Stop(Term(g)) => g == cfg.shutdownGrace && now == p.signalledAt.value && p.sawPid
       case Stop(Grace(d)) =>
         p.sawPid && d == p.signalledAt.value + cfg.shutdownGrace
             && now <= p.signalledAt.value + Max(cfg.shutdownGrace, 0)
       case Stop(KillWait(d)) =>
         && p.sawPid && p.killedAt.Some? && p.killedAt.value + CHILD_SIGKILL_WAIT <= d
         && now <= d <= p.signalledAt.value + Max(cfg.shutdownGrace, 0) + CHILD_SIGKILL_WAIT
       case Returned => p.sawPid ==> StoppedBy(p, now)
       case _ =>
         && (p.sawPid ==> StoppedBy(p, now))
         && now <= p.signalledAt.value + Max(cfg.shutdownGrace, 0) + CHILD_SIGKILL_WAIT
  }

  /** A stopChild that has yet to send SIGTERM will give the grace of its caller. */
  predicate Graces(cfg: Config, p: Pod) {
    && (p.callback.StopEarly? && (p.callback.stop.Read? || p.callback.stop.Term?) ==>
          p.callback.stop.grace == cfg.shutdownGrace)
    && (p.callback.StopLost? && (p.callback.stop.Read? || p.callback.stop.Term?) ==>
          p.callback.stop.grace == cfg.lostGrace)
  }

  predicate PodInv(cfg: Config, now: int, p: Pod) {
    && Positions(p) && Graces(cfg, p) && HandlerOk(cfg, now, p)
    && (p.killedAt.Some? ==> p.killedAt.value <= now)
    && (p.termRequested && p.published ==> p.termSent || AboutToSignal(p))
    && (p.cancelled ==> p.handler.Returned? || p.child.Reaped? || (p.child.NotStarted? && p.callback.Finished?))
  }

  // ---------------------------------------------------------------- every step keeps it

  lemma SpawnKeeps(cfg: Config, now: int, p: Pod, ok: bool)
    requires p.callback.Spawn? || p.callback.Publish?
    requires PodInv(cfg, now, p) && CallbackStep(cfg, now, p, ok).Some?
    ensures PodInv(cfg, now, CallbackStep(cfg, now, p, ok).value)
  {
    match p.callback
    case Spawn =>
    case Publish =>
  }

  lemma SelectKeeps(cfg: Config, now: int, p: Pod, ok: bool)
    requires p.callback.Select? || p.callback.CheckLost?
    requires PodInv(cfg, now, p) && CallbackStep(cfg, now, p, ok).Some?
    ensures PodInv(cfg, now, CallbackStep(cfg, now, p, ok).value)
  {
  }

  lemma CheckExitKeeps(cfg: Config, now: int, p: Pod, ok: bool)
    requires p.callback.CheckExit?
    requires PodInv(cfg, now, p) && CallbackStep(cfg, now, p, ok).Some?
    ensures PodInv(cfg, now, CallbackStep(cfg, now, p, ok).value)
  {
  }

  lemma AwaitKeeps(cfg: Config, now: int, p: Pod, ok: bool)
    requires p.callback.AwaitStop? || p.callback.AwaitLost? || p.callback.ForceLost?
    requires PodInv(cfg, now, p) && CallbackStep(cfg, now, p, ok).Some?
    ensures PodInv(cfg, now, CallbackStep(cfg, now, p, ok).value)
  {
  }

  lemma StopSignalsKeep(cfg: Config, now: int, p: Pod, ok: bool)
    requires (p.callback.StopLost? || p.callback.StopEarly?) && (p.callback.stop.Read? || p.callback.stop.Term?)
    requires PodInv(cfg, now, p) && CallbackStep(cfg, now, p, ok).Some?
    ensures PodInv(cfg, now, CallbackStep(cfg, now, p, ok).value)
  {
  }

  lemma StopWaitsKeep(cfg: Config, now: int, p: Pod, ok: bool)
    requires (p.callback.StopLost? || p.callback.StopEarly?) && (p.callback.stop.Grace? || p.callback.stop.KillWait?)
    requires PodInv(cfg, now, p) && CallbackStep(cfg, now, p, ok).Some?
    ensures PodInv(cfg, now, CallbackStep(cfg, now, p, ok).value)
  {
  }

  lemma CallbackKeeps(cfg: Config, now: int, p: Pod, ok: bool)
    requires PodInv(cfg, now, p) && CallbackStep(cfg, now, p, ok).Some?
    ensures PodInv(cfg, now, CallbackStep(cfg, now, p, ok).value)
  {
    match p.callback
    case Spawn => SpawnKeeps(cfg, now, p, ok);
    case Publish => SpawnKeeps(cfg, now, p, ok);
    case Select => SelectKeeps(cfg, now, p, ok);
    case CheckLost => SelectKeeps(cfg, now, p, ok);
    case CheckExit => CheckExitKeeps(cfg, now, p, ok);
    case StopLost(stop) =>
      if stop.Read? || stop.Term? { StopSignalsKeep(cfg, now, p, ok); } else { StopWaitsKeep(cfg, now, p, ok); }
    case StopEarly(stop) =>
      if stop.Read? || stop.Term? { StopSignalsKeep(cfg, now, p, ok); } else { StopWaitsKeep(cfg, now, p, ok); }
    case _ => AwaitKeeps(cfg, now, p, ok);
  }

  lemma HandlerSignalsKeep(cfg: Config, now: int, p: Pod, viaDone: bool)
    requires p.handler.Stop? && (p.handler.stop.Read? || p.handler.stop.Term?)
    requires PodInv(cfg, now, p) && HandlerStep(now, p, viaDone).Some?
    ensures PodInv(cfg, now, HandlerStep(now, p, viaDone).value)
  {
  }

  lemma HandlerWaitsKeep(cfg: Config, now: int, p: Pod, viaDone: bool)
    requires p.handler.Stop? && (p.handler.stop.Grace? || p.handler.stop.KillWait?)
    requires PodInv(cfg, now, p) && HandlerStep(now, p, viaDone).Some?
    ensures PodInv(cfg, now, HandlerStep(now, p, viaDone).value)
  {
  }

  lemma HandlerEndKeeps(cfg: Config, now: int, p: Pod, viaDone: bool)
    requires !p.handler.Stop?
    requires PodInv(cfg, now, p) && HandlerStep(now, p, viaDone).Some?
    ensures PodInv(cfg, now, HandlerStep(now, p, viaDone).value)
  {
    match p.handler
    case ForceOk =>
    case Cancel =>
  }

  lemma HandlerKeeps(cfg: Config, now: int, p: Pod, viaDone: bool)
    requires PodInv(cfg, now, p) && HandlerStep(now, p, viaDone).Some?
    ensures PodInv(cfg, now, HandlerStep(now, p, viaDone).value)
  {
    match p.handler
    case Stop(stop) =>
      if stop.Read? || stop.Term? {
        HandlerSignalsKeep(cfg, now, p, viaDone);
      } else {
        HandlerWaitsKeep(cfg, now, p, viaDone);
      }
    case _ => HandlerEndKeeps(cfg, now, p, viaDone);
  }

  /** What the elector alone changes is not in the invariant. */
  lemma ElectorKeeps(cfg: Config, now: int, p: Pod, q: Pod)
    requires PodInv(cfg, now, p)
    requires q == p.(lastRenew := q.lastRenew, lossReported := q.lossReported, returned := q.returned)
    ensures PodInv(cfg, now, q)
  {
  }

  lemma AcquireKeeps(cfg: Config, now: int, p: Pod)
    requires PodInv(cfg, now, p) && !p.acquired && !p.cancelled
    ensures PodInv(cfg, now, p.(acquired := true, lastRenew := now, callback := Spawn))
  {
  }

  lemma SignalKeeps(cfg: Config, now: int, p: Pod)
    requires PodInv(cfg, now, p) && p.handler.Listening?
    ensures PodInv(cfg, now, p.(handler := Stop(Read(cfg.shutdownGrace)), signalledAt := Some(now)))
  {
  }

  lemma ChildExitsKeeps(cfg: Config, now: int, p: Pod, code: int)
    requires PodInv(cfg, now, p) && p.child.Running?
    ensures PodInv(cfg, now, p.(child := Reaped, childCode := code))
  {
  }

  lemma EnvironmentKeeps(cfg: Config, mode: Signals, s: System, p: Pod, step: Step)
    requires !step.Callback? && !step.Handler?
    requires PodInv(cfg, s.now, p) && PodStep(cfg, mode, s, p, step).Some?
    ensures PodInv(cfg, s.now, PodStep(cfg, mode, s, p, step).value)
  {
    match step
    case Acquire(_) => AcquireKeeps(cfg, s.now, p);
    case Signal(_) => SignalKeeps(cfg, s.now, p);
    case ChildExits(_, code) => ChildExitsKeeps(cfg, s.now, p, code);
    case Renew(_) => ElectorKeeps(cfg, s.now, p, p.(lastRenew := s.now));
    case ReportLoss(_) => ElectorKeeps(cfg, s.now, p, p.(lossReported := true));
    case Release(_) =>
    case ElectorReturns(_) => ElectorKeeps(cfg, s.now, p, p.(returned := Some(GetExit(p))));
  }

  lemma PodStepKeeps(cfg: Config, mode: Signals, s: System, p: Pod, step: Step)
    requires PodInv(cfg, s.now, p) && PodStep(cfg, mode, s, p, step).Some?
    ensures PodInv(cfg, s.now, PodStep(cfg, mode, s, p, step).value)
  {
    match step
    case Callback(_, ok) => CallbackKeeps(cfg, s.now, p, ok);
    case Handler(_, viaDone) => HandlerKeeps(cfg, s.now, p, viaDone);
    case _ => EnvironmentKeeps(cfg, mode, s, p, step);
  }

  lemma TickKeeps(cfg: Config, now: int, p: Pod, d: int)
    requires PodInv(cfg, now, p) && d > 0 && PodAllows(cfg, p, now + d)
    ensures PodInv(cfg, now + d, p)
  {
  }

  lemma RunKeepsInv(cfg: Config, mode: Signals, s: System, steps: seq<Step>)
    requires forall i :: 0 <= i < |s.pods| ==> PodInv(cfg, s.now, s.pods[i])
    requires RunAll(cfg, mode, s, steps).Some?
    ensures var s' := RunAll(cfg, mode, s, steps).value;
            forall i :: 0 <= i < |s'.pods| ==> PodInv(cfg, s'.now, s'.pods[i])
    decreases steps
  {
    if steps != [] {
      var step := steps[0];
      var s' := Apply(cfg, mode, s, step).value;
      forall i | 0 <= i < |s'.pods| ensures PodInv(cfg, s'.now, s'.pods[i]) {
        if step.Tick? {
          TickKeeps(cfg, s.now, s.pods[i], step.d);
        } else if i == PodOf(step) {
          PodStepKeeps(cfg, mode, s, s.pods[i], step);
        }
      }
      RunKeepsInv(cfg, mode, s', steps[1..]);
    }
  }

  lemma ReachableInv(cfg: Config, mode: Signals, s: System, i: nat)
    requires Reachable(cfg, mode, s) && i < |s.pods|
    ensures PodInv(cfg, s.now, s.pods[i])
  {
    var n: nat, steps: seq<Step> :| RunAll(cfg, mode, InitialSystem(n), steps) == Some(s);
    RunKeepsInv(cfg, mode, InitialSystem(n), steps);
  }

  // ---------------------------------------------------------------- the handshake

  /**
   Once termination was requested and a PID is published, whichever came first, SIGTERM has been
   sent to its group or a stopChild that reads that PID is about to send it, before time can pass.
   */
  lemma StopHandshake(cfg: Config, mode: Signals, s: System, i: nat, later: int)
    requires Reachable(cfg, mode, s) && i < |s.pods| && s.pods[i].termRequested && s.pods[i].published
    ensures s.pods[i].termSent || AboutToSignal(s.pods[i])
    ensures PodAllows(cfg, s.pods[i], later) ==> s.pods[i].termSent
  {
    ReachableInv(cfg, mode, s, i);
  }

  /**
   If the child was published before the handler read the PID, the elector's context is cancelled
   only once the child is reaped, or was sent SIGKILL and the kill wait is over.
   */
  lemma CancelAfterStop(cfg: Config, mode: Signals, s: System, i: nat)
    requires Reachable(cfg, mode, s) && i < |s.pods| && s.pods[i].cancelled && s.pods[i].sawPid
    ensures StoppedBy(s.pods[i], s.now)
  {
    ReachableInv(cfg, mode, s, i);
  }

  /**
   The handler cancels within ShutdownGrace plus the kill wait of the signal, so a pod that is given
   the recommended termination grace still has the release margin left, less the dropped fraction
   of a second.
   */
  lemma ShutdownInTime(cfg: Config, mode: Signals, s: System, i: nat)
    requires Reachable(cfg, mode, s) && i < |s.pods| && s.pods[i].handler.Cancel?
    ensures s.pods[i].signalledAt.Some?
    ensures s.now <= s.pods[i].signalledAt.value + Max(cfg.shutdownGrace, 0) + CHILD_SIGKILL_WAIT
    ensures s.pods[i].signalledAt.value + RecommendedTerminationGracePeriod(cfg.shutdownGrace) * SECOND - s.now
              > LEASE_RELEASE_MARGIN - SECOND
    ensures cfg.shutdownGrace > 0 ==>
              RecommendedTerminationGracePeriod(cfg.shutdownGrace) == (cfg.shutdownGrace + 15 * SECOND) / SECOND
    ensures cfg.shutdownGrace <= 0 ==> RecommendedTerminationGracePeriod(cfg.shutdownGrace) == 40
  {
    ReachableInv(cfg, mode, s, i);
  }

  /**
   Once SIGTERM goes out, the deadline is a full grace away: that of a shutdown for a child published
   too late, that of a loss for a lost lease, and that of a shutdown for the handler.
   */
  lemma GraceStarts(cfg: Config, mode: Signals, s: System, i: nat, viaDone: bool)
    requires Reachable(cfg, mode, s) && i < |s.pods|
    requires s.pods[i].callback.StopEarly? || s.pods[i].callback.StopLost?
    requires s.pods[i].callback.stop.Term?
    ensures var s' := Apply(cfg, mode, s, Callback(i, viaDone));
            && s'.Some?
            && s'.value.pods[i].callback == if s.pods[i].callback.StopEarly?
                                            then StopEarly(Grace(s.now + cfg.shutdownGrace))
                                            else StopLost(Grace(s.now + cfg.lostGrace))
  {
    ReachableInv(cfg, mode, s, i);
  }

  lemma HandlerGraceStarts(cfg: Config, mode: Signals, s: System, i: nat, viaDone: bool)
    requires Reachable(cfg, mode, s) && i < |s.pods|
    requires s.pods[i].handler.Stop? && s.pods[i].handler.stop.Term?
    ensures var s' := Apply(cfg, mode, s, Handler(i, viaDone));
            s'.Some? && s'.value.pods[i].handler == Stop(Grace(s.now + cfg.shutdownGrace))
  {
    ReachableInv(cfg, mode, s, i);
  }

  /** The stopChild of this goroutine waits for a deadline that has come. */
  predicate GraceOver(now: int, stop: StopPc) {
    stop.Grace? && now >= stop.deadline
  }

  lemma StopKills(now: int, p: Pod, stop: StopPc, viaDone: bool)
    requires StopStep(now, p, stop, viaDone).Some?
    ensures var q := StopStep(now, p, stop, viaDone).value.pod;
            q.killedAt != p.killedAt ==> p.killedAt.None? && q.killedAt == Some(now) && GraceOver(now, stop)
  {
    match stop
    case Read(_) =>
    case Term(_) =>
    case Grace(_) =>
    case KillWait(_) =>
  }

  lemma OthersKillNot(cfg: Config, now: int, p: Pod, ok: bool)
    requires p.callback.Spawn? || p.callback.Publish? || p.callback.Select? || p.callback.CheckExit?
        || p.callback.CheckLost? || p.callback.AwaitStop? || p.callback.ForceLost? || p.callback.AwaitLost?
    requires CallbackStep(cfg, now, p, ok).Some?
    ensures CallbackStep(cfg, now, p, ok).value.killedAt == p.killedAt
  {
    match p.callback
    case Spawn =>
    case Publish =>
    case Select =>
    case CheckExit =>
    case CheckLost =>
    case AwaitStop(_) =>
    case ForceLost =>
    case AwaitLost(_) =>
  }

  /** SIGKILL goes out, at the current time, only when a grace has run out. */
  lemma CallbackKillsLate(cfg: Config, now: int, p: Pod, ok: bool)
    requires CallbackStep(cfg, now, p, ok).Some?
    ensures var q := CallbackStep(cfg, now, p, ok).value;
            q.killedAt != p.killedAt ==>
              && p.killedAt.None? && q.killedAt == Some(now)
              && (p.callback.StopEarly? || p.callback.StopLost?) && GraceOver(now, p.callback.stop)
  {
    match p.callback
    case StopEarly(stop) => StopKills(now, p, stop, ok);
    case StopLost(stop) => StopKills(now, p, stop, ok);
    case _ => OthersKillNot(cfg, now, p, ok);
  }

  lemma HandlerKillsLate(now: int, p: Pod, viaDone: bool)
    requires HandlerStep(now, p, viaDone).Some?
    ensures var q := HandlerStep(now, p, viaDone).value;
            q.killedAt != p.killedAt ==>
              p.killedAt.None? && q.killedAt == Some(now) && p.handler.Stop? && GraceOver(now, p.handler.stop)
  {
    match p.handler
    case Stop(stop) => StopKills(now, p, stop, viaDone);
    case ForceOk =>
    case Cancel =>
  }
}
