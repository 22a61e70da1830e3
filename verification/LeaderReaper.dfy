/**
 The runner's own fields and the loop that reaps every child of PID 1.
 */
module LeaderReaper {
  import opened Wrappers
  import opened LeaderElect

  /** A raw wait status, as wait4 encodes it: the low seven bits are the signal, 0 for an exit. */
  predicate Exited(status: nat) {
    status % 0x80 == 0
  }

  predicate Signaled(status: nat) {
    status % 0x80 != 0 && status % 0x80 != 0x7f
  }

  function WaitStatusExitCode(status: nat): int {
    if Exited(status) then status / 0x100 % 0x100
    else if Signaled(status) then 128 + status % 0x80
    else EXIT_CONFIG
  }

  /** The code is 0 only for a clean exit, so no killed or stopped child ever looks successful. */
  lemma ZeroOnlyOnCleanExit(status: nat)
    ensures 0 <= WaitStatusExitCode(status) < 256
    ensures WaitStatusExitCode(status) == 0 <==> Exited(status) && status / 0x100 % 0x100 == 0
    ensures Signaled(status) ==> WaitStatusExitCode(status) == 128 + status % 0x80 > 128
    ensures Exited(status) ==> WaitStatusExitCode(status) == status / 0x100 % 0x100
    ensures !Signaled(status) && !Exited(status) ==> WaitStatusExitCode(status) == 1
  {
  }

  /** One return of Wait4(-1): EINTR, a reaped process, or any other error (no children left). */
  datatype Waited = Interrupted | Child(pid: int, status: nat) | Failed

  /** The code a stream of wait results reports for `pid`, if it reports one. */
  function Report(events: seq<Waited>, pid: int): Option<int> {
    if events == [] then None
    else
      match events[0]
      case Failed => Some(EXIT_CONFIG)
      case Interrupted => Report(events[1..], pid)
      case Child(p, status) => if p == pid then Some(WaitStatusExitCode(status)) else Report(events[1..], pid)
  }

  predicate Decides(e: Waited, pid: int) {
    e.Failed? || (e.Child? && e.pid == pid)
  }

  /** The report is the first deciding result: the main child's own status, or an error when it never showed up. */
  lemma {:induction false} ReportIsFirst(events: seq<Waited>, pid: int, i: nat)
    requires i < |events| && Decides(events[i], pid) && forall j :: 0 <= j < i ==> !Decides(events[j], pid)
    ensures Report(events, pid) == Some(if events[i].Failed? then EXIT_CONFIG else WaitStatusExitCode(events[i].status))
  {
    if i == 0 {
    } else {
      assert !Decides(events[0], pid);
      ReportIsFirst(events[1..], pid, i - 1);
    }
  }

  lemma {:induction false} NoReportWithout(events: seq<Waited>, pid: int)
    ensures Report(events, pid).None? <==> forall i :: 0 <= i < |events| ==> !Decides(events[i], pid)
  {
    if events != [] {
      NoReportWithout(events[1..], pid);
      assert forall i :: 0 < i < |events| ==> events[i] == events[1..][i - 1];
      if !Decides(events[0], pid) {
        assert events == [events[0]] + events[1..];
      }
    }
  }

  // ---------------------------------------------------------------- who decides the exit code

  datatype ExitCall = Set(code: int) | Force(code: int)

  function FirstSet(calls: seq<ExitCall>): Option<int> {
    if calls == [] then None else if calls[0].Set? then Some(calls[0].code) else FirstSet(calls[1..])
  }

  function LastForced(calls: seq<ExitCall>): Option<int> {
    if calls == [] then None
    else
      var last := calls[|calls| - 1];
      if last.Force? then Some(last.code) else LastForced(calls[..|calls| - 1])
  }

  /** The last forced code decides; without one the first code set; without any, success. */
  function Verdict(calls: seq<ExitCall>): int {
    if LastForced(calls).Some? then LastForced(calls).value
    else if FirstSet(calls).Some? then FirstSet(calls).value
    else EXIT_OK
  }

  lemma {:induction false} FirstSetAfter(calls: seq<ExitCall>, call: ExitCall)
    ensures FirstSet(calls + [call]) ==
            if FirstSet(calls).Some? then FirstSet(calls) else if call.Set? then Some(call.code) else None
  {
    if calls == [] {
      assert (calls + [call])[1..] == [];
    } else {
      assert (calls + [call])[1..] == calls[1..] + [call];
      FirstSetAfter(calls[1..], call);
    }
  }

  lemma {:induction false} SomeoneDecided(calls: seq<ExitCall>)
    requires calls != []
    ensures LastForced(calls).Some? || FirstSet(calls).Some?
  {
    var front, last := calls[..|calls| - 1], calls[|calls| - 1];
    assert calls == front + [last];
    FirstSetAfter(front, last);
    if front != [] { SomeoneDecided(front); }
  }

  /** One more call changes the verdict only if it forces, or is the first. */
  lemma VerdictAfter(calls: seq<ExitCall>, call: ExitCall)
    ensures Verdict(calls + [call]) == if call.Force? || calls == [] then call.code else Verdict(calls)
  {
    assert (calls + [call])[..|calls|] == calls && (calls + [call])[|calls|] == call;
    assert LastForced(calls + [call]) == if call.Force? then Some(call.code) else LastForced(calls);
    FirstSetAfter(calls, call);
    if calls != [] { SomeoneDecided(calls); }
  }

  /** The calls the goroutines of one pod make, in the order in which they get the lock. */
  function AfterCalls(p: Pod, calls: seq<ExitCall>): Pod {
    if calls == [] then p
    else
      var before, call := AfterCalls(p, calls[..|calls| - 1]), calls[|calls| - 1];
      if call.Set? then LeaderElect.SetExit(before, call.code) else LeaderElect.ForceExit(before, call.code)
  }

  /** In the transition system, too, any interleaving of set and forced codes ends in the verdict. */
  lemma {:induction false} CallsDecide(p: Pod, calls: seq<ExitCall>)
    requires p.exit.None?
    ensures LeaderElect.GetExit(AfterCalls(p, calls)) == Verdict(calls)
    ensures AfterCalls(p, calls).exit.Some? <==> calls != []
  {
    if calls != [] {
      var front, last := calls[..|calls| - 1], calls[|calls| - 1];
      CallsDecide(p, front);
      assert calls == front + [last];
      VerdictAfter(front, last);
    }
  }

  class Runner {
    var childCode: int
    var exitCode: int
    var exitSet: bool
    /** The done channel of the current child is closed; Go panics on a second close. */
    var doneClosed: bool
    /** The calls of setExit and forceExit so far. */
    ghost var calls: seq<ExitCall>

    ghost predicate Valid()
      reads this
    {
      (exitSet <==> calls != []) && (exitSet ==> exitCode == Verdict(calls))
    }

    constructor ()
      ensures Valid() && calls == [] && !doneClosed
    {
      childCode, exitCode, exitSet, doneClosed, calls := 0, 0, false, false, [];
    }

    /** setExit. */
    method SetExit(code: int)
      requires Valid()
      modifies `exitCode, `exitSet, `calls
      ensures Valid() && calls == old(calls) + [Set(code)]
    {
      VerdictAfter(calls, Set(code));
      if !exitSet {
        exitCode, exitSet := code, true;
      }
      calls := calls + [Set(code)];
    }

    /** forceExit. */
    method ForceExit(code: int)
      requires Valid()
      modifies `exitCode, `exitSet, `calls
      ensures Valid() && calls == old(calls) + [Force(code)]
    {
      VerdictAfter(calls, Force(code));
      exitCode, exitSet := code, true;
      calls := calls + [Force(code)];
    }

    /** getExit: the verdict on all the calls made, whatever their order. */
    method GetExit() returns (code: int)
      requires Valid()
      ensures code == Verdict(calls)
    {
      code := if exitSet then exitCode else EXIT_OK;
    }

    method CloseDone()
      requires !doneClosed
      modifies `doneClosed
      ensures doneClosed
    {
      doneClosed := true;
    }

    /**
     waitAndReap over the wait results that have come so far.  It consumes them up to the first error,
     closes the channel once and only once, and by then has recorded the reported code, which no
     orphan or recycled PID reaped later can change.
     */
    method WaitAndReap(pid: int, events: seq<Waited>) returns (consumed: nat)
      requires !doneClosed
      modifies `childCode, `doneClosed
      ensures consumed <= |events|
      ensures consumed < |events| ==> events[consumed].Failed?
      ensures forall i :: 0 <= i < consumed ==> !events[i].Failed?
      ensures doneClosed == Report(events, pid).Some?
      ensures childCode == if Report(events, pid).Some? then Report(events, pid).value else old(childCode)
    {
      var childReported := false;
      consumed := 0;
      while consumed < |events|
        invariant consumed <= |events| && childReported == doneClosed
        invariant forall i :: 0 <= i < consumed ==> !events[i].Failed?
        invariant !childReported ==> childCode == old(childCode)
        invariant !childReported ==> Report(events, pid) == Report(events[consumed..], pid)
        invariant childReported ==> Report(events, pid) == Some(childCode)
      {
        ghost var rest := events[consumed..];
        assert rest[0] == events[consumed] && rest[1..] == events[consumed + 1..];
        match events[consumed] {
          case Interrupted =>
          case Failed =>
            if !childReported {
              childCode := EXIT_CONFIG;
              CloseDone();
            }
            return;
          case Child(p, status) =>
            if p == pid && !childReported {
              childReported := true;
              childCode := WaitStatusExitCode(status);
              CloseDone();
            }
        }
        consumed := consumed + 1;
      }
    }
  }
}
