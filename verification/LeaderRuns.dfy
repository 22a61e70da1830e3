/**
 The timing rules are exact: every configuration they reject has a run with two live children.
 */
module LeaderRuns {
  import opened Wrappers
  import opened LeaderElect
  import opened LeaderSafety

  /** No run, with any number of pods, ever has two live children. */
  ghost predicate Safe(cfg: Config, mode: Signals) {
    forall s :: Reachable(cfg, mode, s) ==> Exclusive(s)
  }

  lemma RunAllSnoc(cfg: Config, mode: Signals, s: System, steps: seq<Step>, step: Step)
    requires RunAll(cfg, mode, s, steps).Some?
    ensures RunAll(cfg, mode, s, steps + [step]) == Apply(cfg, mode, RunAll(cfg, mode, s, steps).value, step)
    decreases steps
  {
    if steps == [] {
      assert (steps + [step])[1..] == [];
    } else {
      assert (steps + [step])[0] == steps[0] && (steps + [step])[1..] == steps[1..] + [step];
      RunAllSnoc(cfg, mode, Apply(cfg, mode, s, steps[0]).value, steps[1..], step);
    }
  }

  lemma Advance(cfg: Config, mode: Signals, s: System, step: Step)
    requires Reachable(cfg, mode, s) && Apply(cfg, mode, s, step).Some?
    ensures Reachable(cfg, mode, Apply(cfg, mode, s, step).value)
  {
    var n: nat, steps: seq<Step> :| RunAll(cfg, mode, InitialSystem(n), steps) == Some(s);
    RunAllSnoc(cfg, mode, InitialSystem(n), steps, step);
  }

  /** A step of pod 0 that changes nothing but that pod, with pod 1 still waiting for the lease. */
  lemma Move(cfg: Config, mode: Signals, now: int, holder: Option<nat>, p: Pod, step: Step, p': Pod)
    requires Reachable(cfg, mode, System(now, holder, [p, FRESH_POD]))
    requires !step.Tick? && !step.Acquire? && !step.Release? && PodOf(step) == 0
    requires PodStep(cfg, mode, System(now, holder, [p, FRESH_POD]), p, step) == Some(p')
    ensures Reachable(cfg, mode, System(now, holder, [p', FRESH_POD]))
  {
    var s := System(now, holder, [p, FRESH_POD]);
    Advance(cfg, mode, s, step);
    assert s.pods[0 := p'] == [p', FRESH_POD];
    assert Apply(cfg, mode, s, step).value == System(now, holder, [p', FRESH_POD]);
  }

  /** The clock moves on to `time` while pod 0 allows it. */
  lemma Elapse(cfg: Config, mode: Signals, now: int, p: Pod, time: int)
    requires Reachable(cfg, mode, System(now, Some(0), [p, FRESH_POD]))
    requires now <= time && PodAllows(cfg, p, time)
    ensures Reachable(cfg, mode, System(time, Some(0), [p, FRESH_POD]))
  {
    if now < time { Advance(cfg, mode, System(now, Some(0), [p, FRESH_POD]), Tick(time - now)); }
  }

  /** Pod 0 right after its spawn at time 0. */
  const SPAWNED := FRESH_POD.(acquired := true, child := Running, callback := Publish)
  /** Pod 0 leading, its child published. */
  const LEADING := SPAWNED.(published := true, callback := Select)

  lemma SpawnFirst(cfg: Config, mode: Signals)
    ensures Reachable(cfg, mode, System(0, Some(0), [SPAWNED, FRESH_POD]))
  {
    var s0 := InitialSystem(2);
    assert RunAll(cfg, mode, s0, []) == Some(s0);
    assert s0.pods == [FRESH_POD, FRESH_POD];
    var p := FRESH_POD.(acquired := true, callback := Spawn);
    Advance(cfg, mode, s0, Acquire(0));
    assert s0.pods[0 := p] == [p, FRESH_POD];
    Move(cfg, mode, 0, Some(0), p, Callback(0, true), SPAWNED);
  }

  lemma LeadFirst(cfg: Config, mode: Signals)
    ensures Reachable(cfg, mode, System(0, Some(0), [LEADING, FRESH_POD]))
  {
    SpawnFirst(cfg, mode);
    Move(cfg, mode, 0, Some(0), SPAWNED, Callback(0, true), LEADING);
  }

  /** Pod 1 can take an open lease and start a second child beside a live first one. */
  lemma SecondChild(cfg: Config, mode: Signals, s: System, p: Pod)
    requires Reachable(cfg, mode, s) && s.pods == [p, FRESH_POD] && LiveChild(p) && LeaseOpen(cfg, s)
    ensures !Safe(cfg, mode)
  {
    Advance(cfg, mode, s, Acquire(1));
    var s1 := Apply(cfg, mode, s, Acquire(1)).value;
    Advance(cfg, mode, s1, Callback(1, true));
    var s2 := Apply(cfg, mode, s1, Callback(1, true)).value;
    assert LiveChild(s2.pods[0]) && LiveChild(s2.pods[1]);
    assert !Exclusive(s2);
  }

  /** RenewDeadline reaches the end of the lease: the challenger starts before loss is even reported. */
  lemma LeaseTooShortUnsafe(cfg: Config, mode: Signals)
    requires cfg.renewDeadline >= 0 && cfg.leaseDuration <= cfg.renewDeadline
    ensures !Safe(cfg, mode)
  {
    LeadFirst(cfg, mode);
    var time := Max(cfg.leaseDuration, 0);
    Elapse(cfg, mode, 0, LEADING, time);
    SecondChild(cfg, mode, System(time, Some(0), [LEADING, FRESH_POD]), LEADING);
  }

  /** Pod 0 after its loss was reported at RenewDeadline, in the grace of the lost path. */
  function LostInGrace(cfg: Config): Pod {
    LEADING.(lossReported := true, termRequested := true, termSent := true,
             callback := StopLost(Grace(cfg.renewDeadline + cfg.lostGrace)))
  }

  lemma LoseFirst(cfg: Config, mode: Signals)
    requires cfg.renewDeadline >= 0
    ensures Reachable(cfg, mode, System(cfg.renewDeadline, Some(0), [LostInGrace(cfg), FRESH_POD]))
  {
    var r, g := cfg.renewDeadline, cfg.lostGrace;
    LeadFirst(cfg, mode);
    Elapse(cfg, mode, 0, LEADING, r);
    var lost := LEADING.(lossReported := true);
    Move(cfg, mode, r, Some(0), LEADING, ReportLoss(0), lost);
    Move(cfg, mode, r, Some(0), lost, Callback(0, false), lost.(callback := CheckLost));
    Move(cfg, mode, r, Some(0), lost.(callback := CheckLost), Callback(0, true), lost.(callback := StopLost(Read(g))));
    var asked := lost.(termRequested := true, callback := StopLost(Term(g)));
    Move(cfg, mode, r, Some(0), lost.(callback := StopLost(Read(g))), Callback(0, true), asked);
    Move(cfg, mode, r, Some(0), asked, Callback(0, true), LostInGrace(cfg));
  }

  /** LostGrace reaches the end of the lease: the child is still in its grace when the challenger starts. */
  lemma LostGraceUnsafe(cfg: Config, mode: Signals)
    requires 0 <= cfg.renewDeadline < cfg.leaseDuration <= cfg.renewDeadline + cfg.lostGrace
    ensures !Safe(cfg, mode)
  {
    LoseFirst(cfg, mode);
    Elapse(cfg, mode, cfg.renewDeadline, LostInGrace(cfg), cfg.leaseDuration);
    SecondChild(cfg, mode, System(cfg.leaseDuration, Some(0), [LostInGrace(cfg), FRESH_POD]), LostInGrace(cfg));
  }

  /** Pod 0 signalled at RenewDeadline, in the grace of the signal path. */
  function SignalInGrace(cfg: Config): Pod {
    LEADING.(termRequested := true, termSent := true, sawPid := true, signalledAt := Some(cfg.renewDeadline),
             handler := Stop(Grace(cfg.renewDeadline + cfg.shutdownGrace)))
  }

  lemma SignalFirst(cfg: Config)
    requires cfg.renewDeadline >= 0
    ensures Reachable(cfg, AfterPublish, System(cfg.renewDeadline, Some(0), [SignalInGrace(cfg), FRESH_POD]))
  {
    var r, g, mode := cfg.renewDeadline, cfg.shutdownGrace, AfterPublish;
    LeadFirst(cfg, mode);
    Elapse(cfg, mode, 0, LEADING, r);
    var signalled := LEADING.(handler := Stop(Read(g)), signalledAt := Some(r));
    Move(cfg, mode, r, Some(0), LEADING, Signal(0), signalled);
    var asked := signalled.(termRequested := true, sawPid := true, handler := Stop(Term(g)));
    Move(cfg, mode, r, Some(0), signalled, Handler(0, true), asked);
    Move(cfg, mode, r, Some(0), asked, Handler(0, true), SignalInGrace(cfg));
  }

  /** Loss after a signal waits out ShutdownGrace instead of LostGrace. */
  lemma ShutdownGraceUnsafe(cfg: Config)
    requires 0 <= cfg.renewDeadline < cfg.leaseDuration <= cfg.renewDeadline + cfg.shutdownGrace
    ensures !Safe(cfg, AfterPublish)
  {
    var r, mode := cfg.renewDeadline, AfterPublish;
    SignalFirst(cfg);
    var lost := SignalInGrace(cfg).(lossReported := true);
    Move(cfg, mode, r, Some(0), SignalInGrace(cfg), ReportLoss(0), lost);
    Move(cfg, mode, r, Some(0), lost, Callback(0, false), lost.(callback := CheckLost));
    var waiting := lost.(callback := AwaitStop(r + cfg.shutdownGrace + CHILD_SIGKILL_WAIT));
    Move(cfg, mode, r, Some(0), lost.(callback := CheckLost), Callback(0, true), waiting);
    Elapse(cfg, mode, r, waiting, cfg.leaseDuration);
    SecondChild(cfg, mode, System(cfg.leaseDuration, Some(0), [waiting, FRESH_POD]), waiting);
  }

  /** A signal before the PID is published releases the lease while the child runs, whatever the timings. */
  lemma EarlySignalUnsafe(cfg: Config)
    ensures !Safe(cfg, AnyTime)
  {
    var g, mode := cfg.shutdownGrace, AnyTime;
    SpawnFirst(cfg, mode);
    var signalled := SPAWNED.(handler := Stop(Read(g)), signalledAt := Some(0));
    Move(cfg, mode, 0, Some(0), SPAWNED, Signal(0), signalled);
    var back := signalled.(termRequested := true, handler := ForceOk);
    Move(cfg, mode, 0, Some(0), signalled, Handler(0, true), back);
    Move(cfg, mode, 0, Some(0), back, Handler(0, true), back.(exit := Some(EXIT_OK), handler := Cancel));
    var cancelled := back.(exit := Some(EXIT_OK), cancelled := true, handler := Returned);
    Move(cfg, mode, 0, Some(0), back.(exit := Some(EXIT_OK), handler := Cancel), Handler(0, true), cancelled);
    var s := System(0, Some(0), [cancelled, FRESH_POD]);
    Advance(cfg, mode, s, Release(0));
    var freed := Apply(cfg, mode, s, Release(0)).value;
    assert freed.pods == s.pods[0 := cancelled] == [cancelled, FRESH_POD];
    SecondChild(cfg, mode, freed, cancelled);
  }

  /**
   Takeover safety, exactly.  Without signals it holds if and only if LostGrace is below
   LeaseDuration - RenewDeadline, with signals that follow the publish if and only if ShutdownGrace
   is below it too, and with signals at any time never.
   */
  lemma SafeIffTiming(cfg: Config, mode: Signals)
    requires cfg.renewDeadline >= 0
    ensures Safe(cfg, mode) <==> SafeTiming(cfg, mode)
  {
    if SafeTiming(cfg, mode) {
      forall s | Reachable(cfg, mode, s) ensures Exclusive(s) { TakeoverSafety(cfg, mode, s); }
    } else if mode.AnyTime? {
      EarlySignalUnsafe(cfg);
    } else if cfg.leaseDuration <= cfg.renewDeadline {
      LeaseTooShortUnsafe(cfg, mode);
    } else if cfg.lostGrace >= cfg.leaseDuration - cfg.renewDeadline {
      LostGraceUnsafe(cfg, mode);
    } else {
      ShutdownGraceUnsafe(cfg);
    }
  }

  /**
   Validate draws exactly this line: among configurations that pass its other checks it accepts
   those, and only those, that are safe in every run without signals.  The defaults are among them,
   and are not safe once a signal may precede the loss.
   */
  lemma ValidateIsExact(cfg: Config)
    requires cfg.leaseName != "" && cfg.command != [] && cfg.retryPeriod > 0
        && cfg.renewDeadline > MinRenew(cfg.retryPeriod)
    ensures Validate(cfg).None? <==> Safe(cfg, Never)
    ensures Validate(DEFAULTS).None? && Safe(DEFAULTS, Never) && !Safe(DEFAULTS, AfterPublish)
  {
    SafeIffTiming(cfg, Never);
    SafeIffTiming(DEFAULTS, Never);
    SafeIffTiming(DEFAULTS, AfterPublish);
  }
}
