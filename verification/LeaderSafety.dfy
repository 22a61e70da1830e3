/**
 When the timing rules keep two pods from running the wrapped command at once.
 */
module LeaderSafety {
  import opened Wrappers
  import opened LeaderElect

  function Max(a: int, b: int): int {
    if a < b then b else a
  }

  /** The timing part of Validate, extended to the signal path's grace when signals may come. */
  predicate SafeTiming(cfg: Config, mode: Signals) {
    var maxLost := cfg.leaseDuration - cfg.renewDeadline;
    && maxLost > 0 && cfg.lostGrace < maxLost
    && match mode
       case Never => true
       case AfterPublish => cfg.shutdownGrace < maxLost
       case AnyTime => false
  }

  // ---------------------------------------------------------------- one pod

  /** The pod has a live child or is about to start one. */
  predicate Holding(p: Pod) {
    p.callback.Spawn? || LiveChild(p)
  }

  predicate Shape(p: Pod) {
    && (p.callback.Idle? <==> !p.acquired)
    && (p.callback.Idle? || p.callback.Spawn? ==> p.child.NotStarted? && p.killedAt.None?)
    && (p.callback.Idle? || p.callback.Spawn? || p.callback.Publish? ==> !p.published)
    && (p.callback.Select? || p.callback.CheckExit? || p.callback.CheckLost? || p.callback.StopLost? ==> p.published)
    && (p.callback.CheckExit? ==> p.child.Reaped?)
    && (p.callback.CheckLost? || p.callback.AwaitStop? || p.callback.StopLost? ==> LeadDone(p))
    && (!p.published ==> !p.termRequested && p.handler.Listening?)
    && !p.callback.StopEarly?
  }

  /**
   The signal path of a pod whose child was published before the signal: it has read the PID, and
   while the child lives it is on its way to SIGKILL within ShutdownGrace.
   */
  predicate SignalPath(cfg: Config, p: Pod) {
    match p.handler
    case Listening => true
    case Stop(Read(g)) => g == cfg.shutdownGrace && p.published
    case Stop(Term(g)) => g == cfg.shutdownGrace && p.published && p.termRequested
    case Stop(Grace(d)) => p.published && p.termRequested
    case _ => p.published && !LiveChild(p)
  }

  /** How long the signal path may still take, for a child that only it will stop. */
  predicate SignalCovers(cfg: Config, now: int, p: Pod) {
    match p.handler
    case Stop(Term(_)) => now <= p.lastRenew + cfg.renewDeadline
    case Stop(Grace(d)) =>
      && d <= p.lastRenew + cfg.renewDeadline + cfg.shutdownGrace
      && now <= p.lastRenew + cfg.renewDeadline + Max(cfg.shutdownGrace, 0)
    case _ => false
  }

  /** Why a live child cannot be older than its lease: who will stop it, and by when. */
  predicate Bounded(cfg: Config, now: int, p: Pod) {
    match p.callback
    case Spawn => now <= p.lastRenew + cfg.renewDeadline && !p.termRequested
    case Publish => now <= p.lastRenew + cfg.renewDeadline && !p.termRequested
    case Select =>
      now <= p.lastRenew + cfg.renewDeadline && (p.termRequested ==> SignalCovers(cfg, now, p))
    case CheckLost =>
      now <= p.lastRenew + cfg.renewDeadline && (p.termRequested ==> SignalCovers(cfg, now, p))
    case AwaitStop(_) => SignalCovers(cfg, now, p)
    case Finished => SignalCovers(cfg, now, p)
    case StopLost(Read(g)) => g == cfg.lostGrace && now <= p.lastRenew + cfg.renewDeadline
    case StopLost(Term(g)) => g == cfg.lostGrace && now <= p.lastRenew + cfg.renewDeadline
    case StopLost(Grace(d)) =>
      && d <= p.lastRenew + cfg.renewDeadline + cfg.lostGrace
      && now <= p.lastRenew + cfg.renewDeadline + Max(cfg.lostGrace, 0)
    case _ => false
  }

  predicate PodInv(cfg: Config, now: int, p: Pod) {
    && Shape(p) && SignalPath(cfg, p)
    && (p.acquired ==> p.lastRenew <= now)
    && (Holding(p) ==> Bounded(cfg, now, p) && !p.cancelled)
  }

  /** A step of the wrapper keeps the invariant and never brings a child back. */
  predicate Keeps(cfg: Config, now: int, p: Pod, p': Pod) {
    PodInv(cfg, now, p') && (Holding(p') ==> Holding(p))
  }

  lemma SpawnKeeps(cfg: Config, now: int, p: Pod, ok: bool)
    requires p.callback.Spawn? || p.callback.Publish?
    requires PodInv(cfg, now, p) && CallbackStep(cfg, now, p, ok).Some?
    ensures Keeps(cfg, now, p, CallbackStep(cfg, now, p, ok).value)
  {
  }

  lemma SelectKeeps(cfg: Config, now: int, p: Pod, ok: bool)
    requires p.callback.Select?
    requires PodInv(cfg, now, p) && CallbackStep(cfg, now, p, ok).Some?
    ensures Keeps(cfg, now, p, CallbackStep(cfg, now, p, ok).value)
  {
  }

  lemma CheckExitKeeps(cfg: Config, now: int, p: Pod, ok: bool)
    requires p.callback.CheckExit?
    requires PodInv(cfg, now, p) && CallbackStep(cfg, now, p, ok).Some?
    ensures Keeps(cfg, now, p, CallbackStep(cfg, now, p, ok).value)
  {
  }

  lemma CheckLostKeeps(cfg: Config, now: int, p: Pod, ok: bool)
    requires p.callback.CheckLost?
    requires PodInv(cfg, now, p) && CallbackStep(cfg, now, p, ok).Some?
    ensures Keeps(cfg, now, p, CallbackStep(cfg, now, p, ok).value)
  {
  }

  lemma AwaitKeeps(cfg: Config, now: int, p: Pod, ok: bool)
    requires p.callback.AwaitStop? || p.callback.AwaitLost? || p.callback.ForceLost?
    requires PodInv(cfg, now, p) && CallbackStep(cfg, now, p, ok).Some?
    ensures Keeps(cfg, now, p, CallbackStep(cfg, now, p, ok).value)
  {
  }

  lemma LostSignalsKeep(cfg: Config, now: int, p: Pod, ok: bool)
    requires p.callback.StopLost? && (p.callback.stop.Read? || p.callback.stop.Term?)
    requires PodInv(cfg, now, p) && CallbackStep(cfg, now, p, ok).Some?
    ensures Keeps(cfg, now, p, CallbackStep(cfg, now, p, ok).value)
  {
  }

  lemma LostWaitsKeep(cfg: Config, now: int, p: Pod, ok: bool)
    requires p.callback.StopLost? && (p.callback.stop.Grace? || p.callback.stop.KillWait?)
    requires PodInv(cfg, now, p) && CallbackStep(cfg, now, p, ok).Some?
    ensures Keeps(cfg, now, p, CallbackStep(cfg, now, p, ok).value)
  {
  }

  lemma CallbackKeeps(cfg: Config, now: int, p: Pod, ok: bool)
    requires PodInv(cfg, now, p) && CallbackStep(cfg, now, p, ok).Some?
    ensures Keeps(cfg, now, p, CallbackStep(cfg, now, p, ok).value)
  {
    match p.callback
    case Spawn => SpawnKeeps(cfg, now, p, ok);
    case Publish => SpawnKeeps(cfg, now, p, ok);
    case Select => SelectKeeps(cfg, now, p, ok);
    case CheckExit => CheckExitKeeps(cfg, now, p, ok);
    case CheckLost => CheckLostKeeps(cfg, now, p, ok);
    case StopLost(stop) =>
      if stop.Read? || stop.Term? { LostSignalsKeep(cfg, now, p, ok); } else { LostWaitsKeep(cfg, now, p, ok); }
    case _ => AwaitKeeps(cfg, now, p, ok);
  }

  lemma HandlerSignalsKeep(cfg: Config, now: int, p: Pod, viaDone: bool)
    requires p.handler.Stop? && (p.handler.stop.Read? || p.handler.stop.Term?)
    requires PodInv(cfg, now, p) && HandlerStep(now, p, viaDone).Some?
    ensures Keeps(cfg, now, p, HandlerStep(now, p, viaDone).value)
  {
  }

  lemma HandlerWaitsKeep(cfg: Config, now: int, p: Pod, viaDone: bool)
    requires p.handler.Stop? && (p.handler.stop.Grace? || p.handler.stop.KillWait?)
    requires PodInv(cfg, now, p) && HandlerStep(now, p, viaDone).Some?
    ensures Keeps(cfg, now, p, HandlerStep(now, p, viaDone).value)
  {
  }

  lemma HandlerEndKeeps(cfg: Config, now: int, p: Pod, viaDone: bool)
    requires !p.handler.Stop?
    requires PodInv(cfg, now, p) && HandlerStep(now, p, viaDone).Some?
    ensures Keeps(cfg, now, p, HandlerStep(now, p, viaDone).value)
  {
  }

  lemma HandlerKeeps(cfg: Config, now: int, p: Pod, viaDone: bool)
    requires PodInv(cfg, now, p) && HandlerStep(now, p, viaDone).Some?
    ensures Keeps(cfg, now, p, HandlerStep(now, p, viaDone).value)
  {
    match p.handler
    case Stop(stop) =>
      if stop.Read? || stop.Term? {
        HandlerSignalsKeep(cfg, now, p, viaDone);
      } else {
        HandlerWaitsKeep(cfg, now, p, viaDone);
      }
    case _ => HandlerEndKeeps(cfg, now, p, viaDone);
  }

  lemma PodStepKeeps(cfg: Config, mode: Signals, s: System, p: Pod, step: Step)
    requires !mode.AnyTime? && cfg.renewDeadline >= 0
    requires PodInv(cfg, s.now, p) && PodStep(cfg, mode, s, p, step).Some?
    ensures PodInv(cfg, s.now, PodStep(cfg, mode, s, p, step).value)
    ensures !step.Acquire? ==> Keeps(cfg, s.now, p, PodStep(cfg, mode, s, p, step).value)
  {
    match step
    case Callback(_, ok) => CallbackKeeps(cfg, s.now, p, ok);
    case Handler(_, viaDone) => HandlerKeeps(cfg, s.now, p, viaDone);
    case _ =>
  }

  lemma TickKeeps(cfg: Config, now: int, p: Pod, d: int)
    requires PodInv(cfg, now, p) && d > 0 && PodAllows(cfg, p, now + d)
    ensures PodInv(cfg, now + d, p)
  {
  }

  /** A live child's lease has not expired: it is stopped strictly before lastRenew + LeaseDuration. */
  lemma HoldingBeforeExpiry(cfg: Config, mode: Signals, now: int, p: Pod)
    requires SafeTiming(cfg, mode) && PodInv(cfg, now, p) && Holding(p)
    requires mode.Never? ==> p.handler.Listening?
    ensures now < p.lastRenew + cfg.leaseDuration
  {
  }

  // ---------------------------------------------------------------- all pods

  /** Whoever has or is about to have a live child is the pod the Lease names. */
  ghost predicate Inv(cfg: Config, mode: Signals, s: System) {
    && (forall i :: 0 <= i < |s.pods| ==> PodInv(cfg, s.now, s.pods[i]))
    && (forall i :: 0 <= i < |s.pods| && Holding(s.pods[i]) ==> s.holder == Some(i))
    && (mode.Never? ==> forall i :: 0 <= i < |s.pods| ==> s.pods[i].handler.Listening?)
  }

  lemma NobodyHoldsExpired(cfg: Config, mode: Signals, s: System, i: nat)
    requires SafeTiming(cfg, mode) && Inv(cfg, mode, s) && LeaseOpen(cfg, s) && i < |s.pods|
    ensures !Holding(s.pods[i])
  {
    if Holding(s.pods[i]) { HoldingBeforeExpiry(cfg, mode, s.now, s.pods[i]); }
  }

  lemma StepKeepsInv(cfg: Config, mode: Signals, s: System, step: Step)
    requires SafeTiming(cfg, mode) && cfg.renewDeadline >= 0
    requires Inv(cfg, mode, s) && Apply(cfg, mode, s, step).Some?
    ensures Inv(cfg, mode, Apply(cfg, mode, s, step).value)
  {
    var s' := Apply(cfg, mode, s, step).value;
    if step.Tick? {
      forall i | 0 <= i < |s.pods| ensures PodInv(cfg, s'.now, s'.pods[i]) {
        TickKeeps(cfg, s.now, s.pods[i], step.d);
      }
    } else {
      var k := PodOf(step);
      PodStepKeeps(cfg, mode, s, s.pods[k], step);
      if step.Acquire? {
        forall i | 0 <= i < |s.pods| ensures !Holding(s.pods[i]) { NobodyHoldsExpired(cfg, mode, s, i); }
      }
    }
  }

  lemma RunKeepsInv(cfg: Config, mode: Signals, s: System, steps: seq<Step>)
    requires SafeTiming(cfg, mode) && cfg.renewDeadline >= 0
    requires Inv(cfg, mode, s) && RunAll(cfg, mode, s, steps).Some?
    ensures Inv(cfg, mode, RunAll(cfg, mode, s, steps).value)
    decreases steps
  {
    if steps != [] {
      StepKeepsInv(cfg, mode, s, steps[0]);
      RunKeepsInv(cfg, mode, Apply(cfg, mode, s, steps[0]).value, steps[1..]);
    }
  }

  /**
   Takeover safety.  In every state any number of pods can reach, at most one has a live child, and
   that child is stopped strictly before its pod's last renewal plus LeaseDuration.
   */
  lemma TakeoverSafety(cfg: Config, mode: Signals, s: System)
    requires SafeTiming(cfg, mode) && cfg.renewDeadline >= 0 && Reachable(cfg, mode, s)
    ensures Exclusive(s)
    ensures forall i :: 0 <= i < |s.pods| && LiveChild(s.pods[i]) ==>
              s.holder == Some(i) && s.now < s.pods[i].lastRenew + cfg.leaseDuration
  {
    var n: nat, steps: seq<Step> :| RunAll(cfg, mode, InitialSystem(n), steps) == Some(s);
    RunKeepsInv(cfg, mode, InitialSystem(n), steps);
    forall i | 0 <= i < |s.pods| && LiveChild(s.pods[i]) ensures s.now < s.pods[i].lastRenew + cfg.leaseDuration {
      HoldingBeforeExpiry(cfg, mode, s.now, s.pods[i]);
    }
  }
}
