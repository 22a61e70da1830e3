/**
 What the wrapper does, beside what it avoids: some step is always possible, a pod that renews leads
 for as long as it likes, and a signal hands the lease over with the child down and success as code.
 */
module LeaderProgress {
  import opened Wrappers
  import opened LeaderElect
  import opened LeaderRuns

  // ---------------------------------------------------------------- the configuration check

  /** What Validate accepts, and which error it names first. */
  lemma ValidateIff(c: Config)
    ensures Validate(c).None? <==>
            && c.leaseName != "" && c.command != [] && c.retryPeriod > 0 && c.renewDeadline < c.leaseDuration
            && c.renewDeadline + c.lostGrace < c.leaseDuration && c.renewDeadline > 12 * c.retryPeriod / 10
    ensures c.leaseName == "" ==> Validate(c) == Some(LeaseNameRequired)
    ensures c.leaseName != "" && c.command == [] ==> Validate(c) == Some(CommandRequired)
    ensures c.leaseName != "" && c.command != [] && c.leaseDuration <= c.renewDeadline ==>
              Validate(c) == Some(LeaseTooShort)
  {
  }

  // ---------------------------------------------------------------- never stuck

  /** A stopChild that does not let the clock move on by one can take a step. */
  lemma StopMoves(now: int, p: Pod, stop: StopPc) returns (viaDone: bool)
    requires StopUrgent(p, stop) || !StopAllows(stop, now + 1)
    ensures StopStep(now, p, stop, viaDone).Some?
  {
    viaDone := p.child.Reaped?;
  }

  lemma HandlerMoves(now: int, p: Pod) returns (viaDone: bool)
    requires !HandlerAllows(p, now + 1)
    ensures HandlerStep(now, p, viaDone).Some?
  {
    if p.handler.Stop? {
      viaDone := StopMoves(now, p, p.handler.stop);
    } else {
      viaDone := true;
    }
  }

  lemma CallbackMoves(cfg: Config, now: int, p: Pod) returns (ok: bool)
    requires !CallbackAllows(p, now + 1)
    ensures CallbackStep(cfg, now, p, ok).Some?
  {
    match p.callback
    case StopEarly(stop) => ok := StopMoves(now, p, stop);
    case StopLost(stop) => ok := StopMoves(now, p, stop);
    case Select => ok := p.child.Reaped?;
    case _ => ok := true;
  }

  /**
   No deadlock and no stop of the clock: in every state whatever, some goroutine can move, or the
   elector has to report a loss, or time can pass.
   */
  lemma NeverStuck(cfg: Config, mode: Signals, s: System) returns (step: Step)
    ensures Apply(cfg, mode, s, step).Some?
  {
    if i :| 0 <= i < |s.pods| && !PodAllows(cfg, s.pods[i], s.now + 1) {
      var p := s.pods[i];
      if !HandlerAllows(p, s.now + 1) {
        var viaDone := HandlerMoves(s.now, p);
        step := Handler(i, viaDone);
      } else if !CallbackAllows(p, s.now + 1) {
        var ok := CallbackMoves(cfg, s.now, p);
        step := Callback(i, ok);
      } else {
        step := ReportLoss(i);
      }
    } else {
      step := Tick(1);
    }
  }

  /** A select takes any of its cases that is ready: the child's exit, the loss, or with both either one. */
  lemma SelectEither(cfg: Config, now: int, p: Pod)
    requires p.callback.Select?
    ensures CallbackStep(cfg, now, p, true) == if p.child.Reaped? then Some(p.(callback := CheckExit)) else None
    ensures CallbackStep(cfg, now, p, false) ==
            if p.lossReported || p.cancelled then Some(p.(callback := CheckLost)) else None
  {
  }

  // ---------------------------------------------------------------- leading

  /** A pod that renews in time leads on, its child alive, for any number of renewals. */
  lemma {:induction false} LeadsOn(cfg: Config, mode: Signals, every: int, n: nat)
    requires 0 < every <= cfg.renewDeadline
    ensures Reachable(cfg, mode, System(n * every, Some(0), [LEADING.(lastRenew := n * every), FRESH_POD]))
    decreases n
  {
    if n == 0 {
      LeadFirst(cfg, mode);
    } else {
      var was, now := (n - 1) * every, n * every;
      assert now == was + every;
      LeadsOn(cfg, mode, every, n - 1);
      Elapse(cfg, mode, was, LEADING.(lastRenew := was), now);
      Move(cfg, mode, now, Some(0), LEADING.(lastRenew := was), Renew(0), LEADING.(lastRenew := now));
    }
  }

  // ---------------------------------------------------------------- handing over

  /** Pod 0 signalled at time 0, its child asked to stop. */
  function Asked(cfg: Config): Pod {
    LEADING.(termRequested := true, termSent := true, sawPid := true, signalledAt := Some(0),
             handler := Stop(Grace(cfg.shutdownGrace)))
  }

  lemma SignalArrives(cfg: Config, mode: Signals)
    requires !mode.Never?
    ensures Reachable(cfg, mode, System(0, Some(0), [Asked(cfg), FRESH_POD]))
  {
    LeadFirst(cfg, mode);
    var signalled := LEADING.(handler := Stop(Read(cfg.shutdownGrace)), signalledAt := Some(0));
    Move(cfg, mode, 0, Some(0), LEADING, Signal(0), signalled);
    var asked := signalled.(termRequested := true, sawPid := true, handler := Stop(Term(cfg.shutdownGrace)));
    Move(cfg, mode, 0, Some(0), signalled, Handler(0, true), asked);
    Move(cfg, mode, 0, Some(0), asked, Handler(0, true), Asked(cfg));
  }

  /** Pod 0 once its child has exited and the handler has cancelled. */
  function HandedIn(cfg: Config, code: int): Pod {
    Asked(cfg).(child := Reaped, childCode := code, exit := Some(EXIT_OK), cancelled := true, handler := Returned)
  }

  lemma ChildStops(cfg: Config, mode: Signals, code: int)
    requires !mode.Never?
    ensures Reachable(cfg, mode, System(0, Some(0), [HandedIn(cfg, code), FRESH_POD]))
  {
    SignalArrives(cfg, mode);
    var down := Asked(cfg).(child := Reaped, childCode := code);
    Move(cfg, mode, 0, Some(0), Asked(cfg), ChildExits(0, code), down);
    Move(cfg, mode, 0, Some(0), down, Handler(0, true), down.(handler := ForceOk));
    Move(cfg, mode, 0, Some(0), down.(handler := ForceOk), Handler(0, true),
        down.(exit := Some(EXIT_OK), handler := Cancel));
    Move(cfg, mode, 0, Some(0), down.(exit := Some(EXIT_OK), handler := Cancel), Handler(0, true), HandedIn(cfg, code));
  }

  /**
   The ordinary shutdown, with every configuration and whatever code the child ends with: the process
   returns success, and another pod takes the released lease at once and starts its own child.
   */
  lemma HandsOver(cfg: Config, mode: Signals, code: int) returns (s: System)
    requires !mode.Never?
    ensures Reachable(cfg, mode, s) && s.now == 0 && |s.pods| == 2 && s.holder == Some(1)
    ensures s.pods[0].child.Reaped? && s.pods[0].returned == Some(EXIT_OK) && LiveChild(s.pods[1])
  {
    ChildStops(cfg, mode, code);
    var p := HandedIn(cfg, code).(returned := Some(EXIT_OK));
    Move(cfg, mode, 0, Some(0), HandedIn(cfg, code), ElectorReturns(0), p);
    var s0 := System(0, Some(0), [p, FRESH_POD]);
    Advance(cfg, mode, s0, Release(0));
    var s1 := Apply(cfg, mode, s0, Release(0)).value;
    assert s1.pods == s0.pods[0 := p] == [p, FRESH_POD];
    Advance(cfg, mode, s1, Acquire(1));
    var s2 := Apply(cfg, mode, s1, Acquire(1)).value;
    Advance(cfg, mode, s2, Callback(1, true));
    s := Apply(cfg, mode, s2, Callback(1, true)).value;
  }

  /** And without a signal: the child's own code is what the process returns. */
  lemma ChildCodeReturned(cfg: Config, mode: Signals, code: int) returns (s: System)
    ensures Reachable(cfg, mode, s) && |s.pods| == 2 && s.pods[0].returned == Some(code)
    ensures s.pods[0].handler.Listening? && !s.pods[0].lossReported
  {
    LeadFirst(cfg, mode);
    var down := LEADING.(child := Reaped, childCode := code);
    Move(cfg, mode, 0, Some(0), LEADING, ChildExits(0, code), down);
    Move(cfg, mode, 0, Some(0), down, Callback(0, true), down.(callback := CheckExit));
    var ended := down.(exit := Some(code), cancelled := true, callback := Finished);
    Move(cfg, mode, 0, Some(0), down.(callback := CheckExit), Callback(0, true), ended);
    Move(cfg, mode, 0, Some(0), ended, ElectorReturns(0), ended.(returned := Some(code)));
    s := System(0, Some(0), [ended.(returned := Some(code)), FRESH_POD]);
  }
}
