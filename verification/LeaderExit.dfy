/**
 The exit code of the wrapper, on every run: what getExit yields at the moment the elector's Run
 returns, which may be before or after the leading callback has had its say.
 */
module LeaderExit {
  import opened Wrappers
  import opened LeaderElect
  import opened LeaderRuns

  /**
   How a pod that was never signalled ends: with the code for a loss unless it cancelled the election
   itself, and if it did, with its child's code, or with a configuration error when there is no child.
   */
  predicate Ended(p: Pod) {
    if p.cancelled then p.exit == Some(OwnCode(p)) && !p.child.Running?
    else p.exit == Some(EXIT_LOST) && p.lossReported
  }

  function OwnCode(p: Pod): int {
    if p.child.NotStarted? then EXIT_CONFIG else p.childCode
  }

  /** Until a signal arrives, the callback alone decides the exit code. */
  predicate Unsignalled(p: Pod) {
    && (!p.callback.Finished? ==> !p.cancelled)
    && match p.callback
       case Idle => p.exit.None? && !p.termRequested && p.child.NotStarted?
       case Spawn => p.exit.None? && !p.termRequested && p.child.NotStarted?
       case CheckExit => p.exit.None? && !p.termRequested && p.child.Reaped?
       case CheckLost => p.exit.None? && !p.termRequested && p.lossReported
       case StopLost(_) => p.exit.None? && p.lossReported
       case ForceLost => p.exit.None? && p.lossReported
       case AwaitLost(_) => p.exit == Some(EXIT_LOST) && p.lossReported
       case Finished => Ended(p)
       case StopEarly(_) => false
       case AwaitStop(_) => false
       case _ => p.exit.None? && !p.termRequested
  }

  /** What an unsignalled process can have ended with; success is also what a loss looks like too early. */
  predicate ReturnedWith(p: Pod, code: int) {
    || (code == OwnCode(p) && !p.child.Running? && p.cancelled)
    || ((code == EXIT_LOST || code == EXIT_OK) && p.lossReported)
  }

  predicate ExitInv(p: Pod) {
    && (!p.acquired ==> p.callback.Idle?)
    && (p.handler.Listening? && p.returned.Some? ==> ReturnedWith(p, p.returned.value))
    && (p.handler.Listening? ==> Unsignalled(p))
    && (Signalled(p) ==> p.exit == Some(EXIT_OK) || (p.exit == Some(EXIT_LOST) && p.lossReported))
    && LossInv(p)
  }

  /** The signal handler has written its code. */
  predicate Signalled(p: Pod) {
    p.handler.Cancel? || p.handler.Returned?
  }

  /** The callback goes down the path of a lost lease only after a reported loss. */
  predicate LossInv(p: Pod) {
    && (p.callback.StopLost? || p.callback.ForceLost? || p.callback.AwaitLost? ==> p.lossReported)
    && (p.callback.CheckLost? ==> LeadDone(p))
    && (p.cancelled && !p.callback.Finished? ==> p.termRequested)
    && (!p.handler.Listening? && !(p.handler.Stop? && p.handler.stop.Read?) ==> p.termRequested)
  }

  /** stopChild touches only the request flag and the signals sent. */
  lemma StopFrame(now: int, p: Pod, stop: StopPc, viaDone: bool)
    requires StopStep(now, p, stop, viaDone).Some?
    ensures var q := StopStep(now, p, stop, viaDone).value.pod;
            && q == p.(termRequested := q.termRequested, termSent := q.termSent, killedAt := q.killedAt)
            && (p.termRequested || stop.Read? ==> q.termRequested)
  {
    match stop
    case Read(_) =>
    case Term(_) =>
    case Grace(_) =>
    case KillWait(_) =>
  }

  /** Moving the callback of a pod inside stopChild, or out of it. */
  lemma StopMoveKeeps(p: Pod, q: Pod, lost: bool, next: CallbackPc)
    requires ExitInv(p) && q == p.(termRequested := q.termRequested, termSent := q.termSent, killedAt := q.killedAt)
    requires p.termRequested ==> q.termRequested
    requires if lost then p.callback.StopLost? && (next.StopLost? || next.ForceLost?)
             else p.callback.StopEarly? && (next.StopEarly? || next.Finished?)
    ensures ExitInv(q.(callback := next))
  {
  }

  lemma StopLostKeeps(cfg: Config, now: int, p: Pod, ok: bool)
    requires p.callback.StopLost? && ExitInv(p) && CallbackStep(cfg, now, p, ok).Some?
    ensures ExitInv(CallbackStep(cfg, now, p, ok).value)
  {
    var m := StopStep(now, p, p.callback.stop, ok).value;
    StopFrame(now, p, p.callback.stop, ok);
    StopMoveKeeps(p, m.pod, true, if m.next.Some? then StopLost(m.next.value) else ForceLost);
  }

  lemma StopEarlyKeeps(cfg: Config, now: int, p: Pod, ok: bool)
    requires p.callback.StopEarly? && ExitInv(p) && CallbackStep(cfg, now, p, ok).Some?
    ensures ExitInv(CallbackStep(cfg, now, p, ok).value)
  {
    var m := StopStep(now, p, p.callback.stop, ok).value;
    StopFrame(now, p, p.callback.stop, ok);
    StopMoveKeeps(p, m.pod, false, if m.next.Some? then StopEarly(m.next.value) else Finished);
  }

  lemma EarlyKeeps(cfg: Config, now: int, p: Pod, ok: bool)
    requires p.callback.Spawn? || p.callback.Publish? || p.callback.Select?
    requires ExitInv(p) && CallbackStep(cfg, now, p, ok).Some?
    ensures ExitInv(CallbackStep(cfg, now, p, ok).value)
  {
    match p.callback
    case Spawn =>
    case Publish =>
    case Select =>
  }

  lemma LateKeeps(cfg: Config, now: int, p: Pod, ok: bool)
    requires p.callback.CheckExit? || p.callback.CheckLost? || p.callback.AwaitStop? || p.callback.ForceLost?
        || p.callback.AwaitLost?
    requires ExitInv(p) && CallbackStep(cfg, now, p, ok).Some?
    ensures ExitInv(CallbackStep(cfg, now, p, ok).value)
  {
    match p.callback
    case CheckExit =>
    case CheckLost =>
    case AwaitStop(_) =>
    case ForceLost =>
    case AwaitLost(_) =>
  }

  lemma CallbackKeeps(cfg: Config, now: int, p: Pod, ok: bool)
    requires ExitInv(p) && CallbackStep(cfg, now, p, ok).Some?
    ensures ExitInv(CallbackStep(cfg, now, p, ok).value)
  {
    match p.callback
    case StopLost(_) => StopLostKeeps(cfg, now, p, ok);
    case StopEarly(_) => StopEarlyKeeps(cfg, now, p, ok);
    case Spawn => EarlyKeeps(cfg, now, p, ok);
    case Publish => EarlyKeeps(cfg, now, p, ok);
    case Select => EarlyKeeps(cfg, now, p, ok);
    case _ => LateKeeps(cfg, now, p, ok);
  }

  lemma HandlerKeeps(now: int, p: Pod, viaDone: bool)
    requires ExitInv(p) && HandlerStep(now, p, viaDone).Some?
    ensures ExitInv(HandlerStep(now, p, viaDone).value)
  {
    match p.handler
    case Stop(stop) => StopFrame(now, p, stop, viaDone);
    case ForceOk =>
    case Cancel =>
  }

  lemma PodStepKeeps(cfg: Config, mode: Signals, s: System, p: Pod, step: Step)
    requires ExitInv(p) && PodStep(cfg, mode, s, p, step).Some?
    ensures ExitInv(PodStep(cfg, mode, s, p, step).value)
  {
    match step
    case Callback(_, ok) => CallbackKeeps(cfg, s.now, p, ok);
    case Handler(_, viaDone) => HandlerKeeps(s.now, p, viaDone);
    case Acquire(_) =>
    case Renew(_) =>
    case ReportLoss(_) => LossKeeps(p);
    case Release(_) =>
    case Signal(_) =>
    case ChildExits(_, code) => ExitsKeeps(p, code);
    case ElectorReturns(_) =>
  }

  lemma LossKeeps(p: Pod)
    requires ExitInv(p)
    ensures ExitInv(p.(lossReported := true))
  {
  }

  lemma ExitsKeeps(p: Pod, code: int)
    requires ExitInv(p) && p.child.Running?
    ensures ExitInv(p.(child := Reaped, childCode := code))
  {
  }

  lemma {:induction false} RunKeeps(cfg: Config, mode: Signals, s: System, steps: seq<Step>)
    requires RunAll(cfg, mode, s, steps).Some? && forall i :: 0 <= i < |s.pods| ==> ExitInv(s.pods[i])
    ensures var s' := RunAll(cfg, mode, s, steps).value; forall i :: 0 <= i < |s'.pods| ==> ExitInv(s'.pods[i])
    decreases steps
  {
    if steps != [] {
      var s' := Apply(cfg, mode, s, steps[0]).value;
      if !steps[0].Tick? { PodStepKeeps(cfg, mode, s, s.pods[PodOf(steps[0])], steps[0]); }
      RunKeeps(cfg, mode, s', steps[1..]);
    }
  }

  lemma ReachableInv(cfg: Config, mode: Signals, s: System, i: nat)
    requires Reachable(cfg, mode, s) && i < |s.pods|
    ensures ExitInv(s.pods[i])
  {
    var n: nat, steps: seq<Step> :| RunAll(cfg, mode, InitialSystem(n), steps) == Some(s);
    RunKeeps(cfg, mode, InitialSystem(n), steps);
  }

  /**
   In every interleaving, a process that was never signalled ends with its child's code after the
   child is down, with a configuration error after a failed spawn, or, after a loss of the lease and
   only then, with the code for a loss or for success.  After the signal handler it is success, unless
   a loss was reported.
   */
  lemma ExitCode(cfg: Config, mode: Signals, s: System, i: nat)
    requires Reachable(cfg, mode, s) && i < |s.pods|
    ensures var p := s.pods[i];
            && (p.handler.Listening? && p.returned.Some? ==> ReturnedWith(p, p.returned.value))
            && (p.handler.Listening? && p.callback.Finished? ==> Ended(p))
            && (Signalled(p) ==> GetExit(p) == EXIT_OK || (GetExit(p) == EXIT_LOST && p.lossReported))
            && (Signalled(p) && !p.lossReported ==> GetExit(p) == EXIT_OK)
  {
    ReachableInv(cfg, mode, s, i);
  }

  /** The callback has stopped the child of a lost lease and forced the code. */
  predicate Forced(p: Pod) {
    p.callback.AwaitLost? || p.callback.Finished?
  }

  /**
   Which of the two it is after a loss: without a signal or a cancel, the elector's Run returns into
   the code for a loss exactly when the callback has forced it by then, and into success otherwise.
   */
  lemma LossCodeIff(cfg: Config, mode: Signals, s: System, i: nat)
    requires Reachable(cfg, mode, s) && i < |s.pods| && Apply(cfg, mode, s, ElectorReturns(i)).Some?
    requires s.pods[i].handler.Listening? && !s.pods[i].cancelled
    ensures var code := Apply(cfg, mode, s, ElectorReturns(i)).value.pods[i].returned;
            && s.pods[i].lossReported
            && (code == Some(EXIT_LOST) <==> Forced(s.pods[i])) && (code == Some(EXIT_OK) <==> !Forced(s.pods[i]))
  {
    ReachableInv(cfg, mode, s, i);
  }

  /** The code an unsignalled process ends with, at the moment the elector's Run returns. */
  lemma UnsignalledCode(cfg: Config, mode: Signals, s: System, i: nat)
    requires Reachable(cfg, mode, s) && i < |s.pods| && Apply(cfg, mode, s, ElectorReturns(i)).Some?
    requires s.pods[i].handler.Listening?
    ensures var p := s.pods[i];
            Apply(cfg, mode, s, ElectorReturns(i)).value.pods[i].returned ==
            Some(if p.cancelled then OwnCode(p) else if Forced(p) then EXIT_LOST else EXIT_OK)
  {
    ReachableInv(cfg, mode, s, i);
  }

  // ---------------------------------------------------------------- after a signal

  /** In this run the callback of pod `i` forces the code for a loss. */
  predicate ForcesLoss(cfg: Config, mode: Signals, s: System, steps: seq<Step>, i: nat)
    requires RunAll(cfg, mode, s, steps).Some? && i < |s.pods|
    decreases steps
  {
    steps != [] &&
    ((steps[0].Callback? && steps[0].pod == i && s.pods[i].callback.ForceLost?) ||
     ForcesLoss(cfg, mode, Apply(cfg, mode, s, steps[0]).value, steps[1..], i))
  }

  /** Once the handler has written its code, only the callback's force changes it. */
  lemma SignalledStep(cfg: Config, mode: Signals, s: System, step: Step, i: nat)
    requires i < |s.pods| && Signalled(s.pods[i]) && s.pods[i].exit.Some? && Apply(cfg, mode, s, step).Some?
    ensures var s' := Apply(cfg, mode, s, step).value;
            && i < |s'.pods| && Signalled(s'.pods[i])
            && s'.pods[i].exit == if step.Callback? && step.pod == i && s.pods[i].callback.ForceLost?
                                  then Some(EXIT_LOST) else s.pods[i].exit
  {
    if !step.Tick? && PodOf(step) == i { SignalledPodStep(cfg, mode, s, s.pods[i], step); }
  }

  lemma SignalledPodStep(cfg: Config, mode: Signals, s: System, p: Pod, step: Step)
    requires Signalled(p) && p.exit.Some? && PodStep(cfg, mode, s, p, step).Some?
    ensures var q := PodStep(cfg, mode, s, p, step).value;
            && Signalled(q)
            && q.exit == if step.Callback? && p.callback.ForceLost? then Some(EXIT_LOST) else p.exit
  {
    match step
    case Callback(_, ok) => SignalledCallback(cfg, s.now, p, ok);
    case Handler(_, _) =>
    case _ =>
  }

  lemma SignalledCallback(cfg: Config, now: int, p: Pod, ok: bool)
    requires Signalled(p) && p.exit.Some? && CallbackStep(cfg, now, p, ok).Some?
    ensures var q := CallbackStep(cfg, now, p, ok).value;
            Signalled(q) && q.exit == if p.callback.ForceLost? then Some(EXIT_LOST) else p.exit
  {
    match p.callback
    case StopLost(_) => SignalledStop(cfg, now, p, ok);
    case StopEarly(_) => SignalledStop(cfg, now, p, ok);
    case Spawn => SignalledEarly(cfg, now, p, ok);
    case Publish => SignalledEarly(cfg, now, p, ok);
    case Select => SignalledEarly(cfg, now, p, ok);
    case _ => SignalledLate(cfg, now, p, ok);
  }

  lemma SignalledStop(cfg: Config, now: int, p: Pod, ok: bool)
    requires p.callback.StopLost? || p.callback.StopEarly?
    requires CallbackStep(cfg, now, p, ok).Some?
    ensures var q := CallbackStep(cfg, now, p, ok).value; q.exit == p.exit && q.handler == p.handler
  {
    StopFrame(now, p, p.callback.stop, ok);
  }

  lemma SignalledEarly(cfg: Config, now: int, p: Pod, ok: bool)
    requires p.callback.Spawn? || p.callback.Publish? || p.callback.Select?
    requires p.exit.Some? && CallbackStep(cfg, now, p, ok).Some?
    ensures var q := CallbackStep(cfg, now, p, ok).value; q.handler == p.handler && q.exit == p.exit
  {
    match p.callback
    case Spawn =>
    case Publish =>
    case Select =>
  }

  lemma SignalledLate(cfg: Config, now: int, p: Pod, ok: bool)
    requires p.callback.CheckExit? || p.callback.CheckLost? || p.callback.AwaitStop? || p.callback.ForceLost?
        || p.callback.AwaitLost?
    requires p.exit.Some? && CallbackStep(cfg, now, p, ok).Some?
    ensures var q := CallbackStep(cfg, now, p, ok).value;
            q.handler == p.handler && q.exit == if p.callback.ForceLost? then Some(EXIT_LOST) else p.exit
  {
    match p.callback
    case CheckExit =>
    case CheckLost =>
    case AwaitStop(_) =>
    case ForceLost =>
    case AwaitLost(_) =>
  }

  lemma {:induction false} SignalledRun(cfg: Config, mode: Signals, s: System, steps: seq<Step>, i: nat)
    requires i < |s.pods| && Signalled(s.pods[i]) && s.pods[i].exit.Some? && RunAll(cfg, mode, s, steps).Some?
    ensures var s' := RunAll(cfg, mode, s, steps).value;
            && i < |s'.pods| && Signalled(s'.pods[i])
            && s'.pods[i].exit == if ForcesLoss(cfg, mode, s, steps, i) then Some(EXIT_LOST) else s.pods[i].exit
    decreases steps
  {
    if steps != [] {
      SignalledStep(cfg, mode, s, steps[0], i);
      SignalledRun(cfg, mode, Apply(cfg, mode, s, steps[0]).value, steps[1..], i);
    }
  }

  /**
   The code of a signalled process, exactly: from the handler's own write on, through any run, the
   elector's Run returns into the code for a loss if the callback forced it after that write, and into
   success otherwise.
   */
  lemma SignalledCodeIff(cfg: Config, mode: Signals, s: System, viaDone: bool, steps: seq<Step>, i: nat)
    requires i < |s.pods| && s.pods[i].handler.ForceOk?
    ensures var written := Apply(cfg, mode, s, Handler(i, viaDone));
            && written.Some? && i < |written.value.pods|
            && (RunAll(cfg, mode, written.value, steps + [ElectorReturns(i)]).Some? ==>
                  && RunAll(cfg, mode, written.value, steps).Some?
                  && var end := RunAll(cfg, mode, written.value, steps + [ElectorReturns(i)]).value;
                     i < |end.pods| && end.pods[i].returned ==
                     Some(if ForcesLoss(cfg, mode, written.value, steps, i) then EXIT_LOST else EXIT_OK))
  {
    HandlerWrites(cfg, mode, s, viaDone, i);
    var s1 := Apply(cfg, mode, s, Handler(i, viaDone)).value;
    if RunAll(cfg, mode, s1, steps + [ElectorReturns(i)]).Some? {
      ReturnsSignalled(cfg, mode, s1, steps, i);
    }
  }

  lemma HandlerWrites(cfg: Config, mode: Signals, s: System, viaDone: bool, i: nat)
    requires i < |s.pods| && s.pods[i].handler.ForceOk?
    ensures var s' := Apply(cfg, mode, s, Handler(i, viaDone));
            && s'.Some? && |s'.value.pods| == |s.pods|
            && s'.value.pods[i] == s.pods[i].(exit := Some(EXIT_OK), handler := Cancel)
  {
  }

  lemma ReturnsSignalled(cfg: Config, mode: Signals, s: System, steps: seq<Step>, i: nat)
    requires i < |s.pods| && Signalled(s.pods[i]) && s.pods[i].exit == Some(EXIT_OK)
    requires RunAll(cfg, mode, s, steps + [ElectorReturns(i)]).Some?
    ensures RunAll(cfg, mode, s, steps).Some?
    ensures var end := RunAll(cfg, mode, s, steps + [ElectorReturns(i)]).value;
            && i < |end.pods|
            && end.pods[i].returned == Some(if ForcesLoss(cfg, mode, s, steps, i) then EXIT_LOST else EXIT_OK)
  {
    Prefix(cfg, mode, s, steps, ElectorReturns(i));
    SignalledRun(cfg, mode, s, steps, i);
    RunAllSnoc(cfg, mode, s, steps, ElectorReturns(i));
  }

  lemma {:induction false} Prefix(cfg: Config, mode: Signals, s: System, steps: seq<Step>, step: Step)
    requires RunAll(cfg, mode, s, steps + [step]).Some?
    ensures RunAll(cfg, mode, s, steps).Some?
    decreases steps
  {
    if steps != [] {
      assert (steps + [step])[0] == steps[0] && (steps + [step])[1..] == steps[1..] + [step];
      Prefix(cfg, mode, Apply(cfg, mode, s, steps[0]).value, steps[1..], step);
    }
  }

  /** In particular, without a loss a signalled process whose Run returns after that write ends with success. */
  lemma ShutdownReturnsOk(cfg: Config, mode: Signals, s: System, i: nat)
    requires Reachable(cfg, mode, s) && i < |s.pods| && Apply(cfg, mode, s, ElectorReturns(i)).Some?
    requires Signalled(s.pods[i]) && !s.pods[i].lossReported
    ensures Apply(cfg, mode, s, ElectorReturns(i)).value.pods[i].returned == Some(EXIT_OK)
  {
    ReachableInv(cfg, mode, s, i);
  }

  // ---------------------------------------------------------------- witnesses

  /** With every configuration a lost lease can end the process with success while its child still runs. */
  lemma LossCanLookOk(cfg: Config, mode: Signals) returns (s: System)
    ensures Reachable(cfg, mode, s) && |s.pods| == 2 && LiveChild(s.pods[0])
    ensures s.pods[0].lossReported && s.pods[0].handler.Listening? && s.pods[0].returned == Some(EXIT_OK)
  {
    LeadFirst(cfg, mode);
    var lost := LEADING.(lossReported := true);
    Move(cfg, mode, 0, Some(0), LEADING, ReportLoss(0), lost);
    Move(cfg, mode, 0, Some(0), lost, ElectorReturns(0), lost.(returned := Some(EXIT_OK)));
    s := System(0, Some(0), [lost.(returned := Some(EXIT_OK)), FRESH_POD]);
  }

  /** And with every configuration it can end it with the code for a loss, its child down. */
  lemma LossCanBeSeen(cfg: Config, mode: Signals) returns (s: System)
    ensures Reachable(cfg, mode, s) && |s.pods| == 2 && s.pods[0].child.Reaped?
    ensures s.pods[0].lossReported && s.pods[0].handler.Listening? && s.pods[0].returned == Some(EXIT_LOST)
  {
    var p := StoppedChild(cfg, mode);
    var forced := p.(exit := Some(EXIT_LOST), callback := AwaitLost(cfg.lostGrace + CHILD_SIGKILL_WAIT));
    Move(cfg, mode, 0, Some(0), p, Callback(0, true), forced);
    Move(cfg, mode, 0, Some(0), forced, ElectorReturns(0), forced.(returned := Some(EXIT_LOST)));
    s := System(0, Some(0), [forced.(returned := Some(EXIT_LOST)), FRESH_POD]);
  }

  lemma StoppedChild(cfg: Config, mode: Signals) returns (p: Pod)
    ensures Reachable(cfg, mode, System(0, Some(0), [p, FRESH_POD])) && p.callback.ForceLost? && p.child.Reaped?
    ensures p.lossReported && p.handler.Listening? && p.exit.None? && p.returned.None?
  {
    var g := cfg.lostGrace;
    LeadFirst(cfg, mode);
    var lost := LEADING.(lossReported := true);
    Move(cfg, mode, 0, Some(0), LEADING, ReportLoss(0), lost);
    Move(cfg, mode, 0, Some(0), lost, Callback(0, false), lost.(callback := CheckLost));
    Move(cfg, mode, 0, Some(0), lost.(callback := CheckLost), Callback(0, true), lost.(callback := StopLost(Read(g))));
    p := StoppedFrom(cfg, mode, lost.(callback := StopLost(Read(g))));
  }

  lemma StoppedFrom(cfg: Config, mode: Signals, p0: Pod) returns (p: Pod)
    requires Reachable(cfg, mode, System(0, Some(0), [p0, FRESH_POD]))
    requires p0 == LEADING.(lossReported := true, callback := StopLost(Read(cfg.lostGrace)))
    ensures Reachable(cfg, mode, System(0, Some(0), [p, FRESH_POD])) && p.callback.ForceLost? && p.child.Reaped?
    ensures p.lossReported && p.handler.Listening? && p.exit.None? && p.returned.None?
  {
    var asked := p0.(termRequested := true, callback := StopLost(Term(cfg.lostGrace)));
    Move(cfg, mode, 0, Some(0), p0, Callback(0, true), asked);
    var waiting := asked.(termSent := true, callback := StopLost(Grace(cfg.lostGrace)));
    Move(cfg, mode, 0, Some(0), asked, Callback(0, true), waiting);
    var down := waiting.(child := Reaped, childCode := 0);
    Move(cfg, mode, 0, Some(0), waiting, ChildExits(0, 0), down);
    p := down.(callback := ForceLost);
    Move(cfg, mode, 0, Some(0), down, Callback(0, true), p);
  }
}
