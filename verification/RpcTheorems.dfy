/**
 What the shared connection guarantees on every run from the empty state, for every interleaving.
 */
module RpcTheorems {
  import opened Wrappers
  import opened RpcProtocol
  import opened RpcSafety

  // ---------------------------------------------------------------- no stranded waiter

  /**
   Every registered request has had a reply put on its channel, or is owed one by a HandleResponse
   that already removed it, or is still pending on a connection that is not closed, or is still
   pending on one whose closer holds the lock and will wake it.
   */
  lemma NoStrandedWaiter(s: State, k: nat)
    requires Reachable(s) && k < |s.chans|
    ensures var ch := s.chans[k];
            && ch.conn < |s.conns|
            && var conn := s.conns[ch.conn];
               || ch.sent > 0
               || (exists t :: 0 <= t < |s.threads| && s.threads[t] == Deliver(k))
               || (&& ch.req in conn.pending && conn.pending[ch.req] == k
                   && (conn.phase.Closed? ==> OwedByCloser(s, ch.conn, ch.req)))
  {
    ReachableInv(s);
    assert ChanOk(s, k);
  }

  /** How one connection may change. */
  predicate Forward(conn: Conn, conn': Conn) {
    && (conn.phase.Connected? ==> !conn'.phase.Init?)
    && (conn.phase.Closed? ==>
          conn'.phase.Closed? && conn'.nextId == conn.nextId && conn'.pending.Keys <= conn.pending.Keys)
  }

  lemma LockedMovesForward(s: State, t: nat, choice: Choice, c: nat)
    requires t < |s.threads| && s.threads[t].Locked? && Ready(s, t) && Exec(s, t, choice).Some? && c < |s.conns|
    ensures var s' := Exec(s, t, choice).value; c < |s'.conns| && Forward(s.conns[c], s'.conns[c])
  {
    match s.threads[t].job
    case CloseJob =>
    case ResponseJob(_) =>
    case CallJob =>
    case ReconnectJob =>
  }

  lemma ExecMovesForward(s: State, t: nat, choice: Choice, c: nat)
    requires t < |s.threads| && Ready(s, t) && Exec(s, t, choice).Some? && c < |s.conns|
    ensures var s' := Exec(s, t, choice).value; c < |s'.conns| && Forward(s.conns[c], s'.conns[c])
  {
    match s.threads[t]
    case Locked(_, _) => LockedMovesForward(s, t, choice, c);
    case _ =>
  }

  /**
   A connection only moves from init to connected to closed, and once it is closed no request is
   ever registered on it again.
   */
  lemma StepMovesForward(s: State, step: Step, c: nat)
    requires Apply(s, step).Some? && c < |s.conns|
    ensures var s' := Apply(s, step).value; c < |s'.conns| && Forward(s.conns[c], s'.conns[c])
  {
    match step
    case Run(t, choice) => ExecMovesForward(s, t, choice, c);
    case _ =>
  }

  lemma {:induction false} RunMovesForward(s: State, steps: seq<Step>, c: nat)
    requires RunAll(s, steps).Some? && c < |s.conns|
    ensures var s' := RunAll(s, steps).value; c < |s'.conns| && Forward(s.conns[c], s'.conns[c])
    decreases steps
  {
    if steps != [] {
      StepMovesForward(s, steps[0], c);
      RunMovesForward(Apply(s, steps[0]).value, steps[1..], c);
    }
  }

  // ---------------------------------------------------------------- the address map

  /**
   Connection map integrity.  A connection calls RemoveConnection at most once and starts one
   reconnect by it; the call finds its own connection in the map, so it never evicts another; and a
   connection is closed and still mapped exactly while its closer holds its lock.
   */
  lemma ConnMapIntegrity(s: State, c: nat)
    requires Reachable(s) && c < |s.conns|
    ensures var conn := s.conns[c];
            var mapped := conn.addr in s.cmap && s.cmap[conn.addr] == c;
            && conn.removals <= 1 && conn.reconnects == conn.removals
            && (mapped <==> conn.removals == 0)
            && (conn.phase.Closed? && mapped <==> ClosedByHolder(s, c))
            && (forall t :: 0 <= t < |s.threads| && s.threads[t] == InRemove(c) ==> mapped)
            && (forall d :: 0 <= d < |s.conns| && d != c && s.conns[d].addr == conn.addr && mapped ==>
                s.conns[d].phase.Closed?)
  {
    ReachableInv(s);
    assert ConnOk(s, c);
    forall t | 0 <= t < |s.threads| && s.threads[t] == InRemove(c)
      ensures s.conns[c].addr in s.cmap && s.cmap[s.conns[c].addr] == c
    {
      assert ThreadOk(s, t);
    }
    forall d | 0 <= d < |s.conns| && d != c && s.conns[d].addr == s.conns[c].addr && s.conns[c].removals == 0
      ensures s.conns[d].phase.Closed?
    {
      assert ConnOk(s, d);
    }
  }

  // ---------------------------------------------------------------- no deadlock

  /** Nothing moves any more unless the environment acts. */
  ghost predicate Quiescent(s: State) {
    forall t, choice :: Apply(s, Run(t, choice)).None?
  }

  /** Positions from which some step is always possible, whatever the other goroutines do. */
  predicate Unblocked(pc: Pc) {
    pc.InGetConn? || pc.Locked? || pc.Closing? || pc.InRemove? || pc.Leaving? || pc.Sending?
  }

  lemma UnblockedCanStep(s: State, t: nat)
    requires Inv(s) && t < |s.threads| && Unblocked(s.threads[t])
    ensures exists choice :: Apply(s, Run(t, choice)).Some?
  {
    InvReady(s, t);
    assert ThreadOk(s, t);
    var pc := s.threads[t];
    if pc.Closing? && pc.todo != {} {
      var id :| id in pc.todo;
      assert Apply(s, Run(t, Pick(id))).Some?;
    } else {
      assert Apply(s, Run(t, Ok)).Some?;
    }
  }

  /**
   Closing never blocks: a closer that still has a waiter to wake finds that waiter's slot free,
   in every reachable state and whichever waiter it takes next.
   */
  lemma CloserNeverBlocks(s: State, t: nat, id: nat)
    requires Reachable(s) && t < |s.threads| && s.threads[t].Closing? && id in s.threads[t].todo
    ensures Apply(s, Run(t, Pick(id))).Some?
  {
    ReachableInv(s);
    InvReady(s, t);
    assert ThreadOk(s, t);
  }

  /**
   Lock order: whoever holds the map lock releases it with its very next step, which is never
   blocked; whoever asks for a connection lock holds no lock at all.
   */
  lemma LockOrder(s: State, t: nat)
    requires Reachable(s) && t < |s.threads|
    ensures s.mapLock == Some(t) ==> Apply(s, Run(t, Ok)).Some? && Apply(s, Run(t, Ok)).value.mapLock.None?
    ensures s.threads[t].NeedLock? ==>
              s.mapLock != Some(t) && forall c :: 0 <= c < |s.conns| ==> s.conns[c].lock != Some(t)
  {
    ReachableInv(s);
    InvReady(s, t);
    assert ThreadOk(s, t);
    forall c | 0 <= c < |s.conns| && s.threads[t].NeedLock? ensures s.conns[c].lock != Some(t) {
      assert ConnOk(s, c);
    }
  }

  /**
   No deadlock: once nothing moves, every lock is free and a goroutine is finished, or a caller
   whose request is pending on a connected connection, or a HandleResponse left behind: its channel
   already holds the close error and its caller gave up after a failed send.
   */
  lemma QuiescentShape(s: State, t: nat)
    requires Reachable(s) && Quiescent(s) && t < |s.threads|
    ensures s.mapLock.None? && forall c :: 0 <= c < |s.conns| ==> s.conns[c].lock.None?
    ensures match s.threads[t]
            case Done => true
            case Waiting(k) => k < |s.chans| && PendingOnOpen(s, k)
            case Deliver(k) => LeftBehind(s, t, k)
            case _ => false
  {
    ReachableInv(s);
    forall u | 0 <= u < |s.threads| ensures !Unblocked(s.threads[u]) {
      if Unblocked(s.threads[u]) { UnblockedCanStep(s, u); }
    }
    assert s.mapLock.None?;
    forall c | 0 <= c < |s.conns| ensures s.conns[c].lock.None? {
      assert ConnOk(s, c);
      if s.conns[c].lock.Some? { NoneNeedsMap(s, s.conns[c].lock.value); }
    }
    InvReady(s, t);
    assert ThreadOk(s, t) && Apply(s, Run(t, Ok)).None?;
    match s.threads[t]
    case Waiting(k) => QuiescentWaiter(s, t, k);
    case Deliver(k) => QuiescentReader(s, t, k);
    case _ =>
  }

  /** Request `k` is registered on a connection that is up. */
  predicate PendingOnOpen(s: State, k: nat)
    requires k < |s.chans|
  {
    var ch := s.chans[k];
    && ch.conn < |s.conns| && s.conns[ch.conn].phase.Connected?
    && ch.req in s.conns[ch.conn].pending && s.conns[ch.conn].pending[ch.req] == k
  }

  /** Goroutine `t` is sending on a channel that holds the close error and that nobody will empty. */
  predicate LeftBehind(s: State, t: nat, k: nat) {
    && t < |s.threads| && k < |s.chans| && s.threads[t] == Deliver(k)
    && s.chans[k].buf == [ConnectionClosed] && s.chans[k].abandoned
  }

  lemma NoneNeedsMap(s: State, u: nat)
    requires Inv(s) && Quiescent(s) && u < |s.threads| && s.mapLock.None?
    ensures !s.threads[u].NeedMap?
  {
    InvReady(s, u);
    assert Apply(s, Run(u, Ok)).None?;
  }

  lemma TakerStuck(s: State, u: nat)
    requires Inv(s) && Quiescent(s) && u < |s.threads|
    ensures s.threads[u].Deliver? ==> s.threads[u].chan < |s.chans| && s.chans[s.threads[u].chan].buf != []
  {
    InvReady(s, u);
    assert Apply(s, Run(u, Ok)).None?;
  }

  lemma QuiescentWaiter(s: State, t: nat, k: nat)
    requires Inv(s) && Quiescent(s) && t < |s.threads| && s.threads[t] == Waiting(k)
    requires forall c :: 0 <= c < |s.conns| ==> s.conns[c].lock.None?
    ensures k < |s.chans| && PendingOnOpen(s, k)
  {
    assert ThreadOk(s, t) && ChanOk(s, k);
    assert ConnOk(s, s.chans[k].conn);
    assert Apply(s, Run(t, Ok)).None?;
    if s.chans[k].taker.Some? { TakerStuck(s, s.chans[k].taker.value); }
  }

  lemma QuiescentReader(s: State, t: nat, k: nat)
    requires Inv(s) && Quiescent(s) && t < |s.threads| && s.threads[t] == Deliver(k)
    ensures LeftBehind(s, t, k)
  {
    assert ThreadOk(s, t) && ChanOk(s, k);
    assert Apply(s, Run(t, Ok)).None?;
    assert Apply(s, Run(s.chans[k].caller, Ok)).None?;
    var reply := s.chans[k].buf[0];
    assert reply in s.chans[k].buf && reply != Response;
    assert reply == ConnectionClosed && s.chans[k].buf == [reply];
  }

  // ---------------------------------------------------------------- the reader that is left behind

  lemma LeftBehindUnderLock(s: State, u: nat, choice: Choice, t: nat, k: nat)
    requires LeftBehind(s, t, k) && u < |s.threads| && Ready(s, u) && s.threads[u].Locked?
    requires Exec(s, u, choice).Some?
    ensures LeftBehind(Exec(s, u, choice).value, t, k)
  {
  }

  lemma LeftBehindInClose(s: State, u: nat, choice: Choice, t: nat, k: nat)
    requires LeftBehind(s, t, k) && ChanOk(s, k) && u < |s.threads| && ThreadOk(s, u) && Ready(s, u)
    requires s.threads[u].Closing? || s.threads[u].NeedMap? || s.threads[u].InRemove? || s.threads[u].Leaving?
    requires Exec(s, u, choice).Some?
    ensures LeftBehind(Exec(s, u, choice).value, t, k)
  {
  }

  lemma LeftBehindStep(s: State, step: Step, t: nat, k: nat)
    requires LeftBehind(s, t, k) && ChanOk(s, k) && Apply(s, step).Some?
    requires step.Run? && step.thread < |s.threads| ==> ThreadOk(s, step.thread)
    ensures LeftBehind(Apply(s, step).value, t, k)
  {
    if step.Run? {
      match s.threads[step.thread]
      case Locked(_, _) => LeftBehindUnderLock(s, step.thread, step.choice, t, k);
      case Closing(_, _) => LeftBehindInClose(s, step.thread, step.choice, t, k);
      case NeedMap(_) => LeftBehindInClose(s, step.thread, step.choice, t, k);
      case InRemove(_) => LeftBehindInClose(s, step.thread, step.choice, t, k);
      case Leaving(_) => LeftBehindInClose(s, step.thread, step.choice, t, k);
      case _ =>
    }
  }

  /** A reader that is left behind stays so for ever, whatever happens next. */
  lemma LeftForGood(s: State, steps: seq<Step>, t: nat, k: nat)
    requires Inv(s) && LeftBehind(s, t, k) && RunAll(s, steps).Some?
    ensures LeftBehind(RunAll(s, steps).value, t, k)
    decreases steps
  {
    if steps != [] {
      StepKeepsInv(s, steps[0]);
      assert ChanOk(s, k);
      LeftBehindStep(s, steps[0], t, k);
      LeftForGood(Apply(s, steps[0]).value, steps[1..], t, k);
    }
  }

  // ---------------------------------------------------------------- which readers get through

  /** Some schedule brings goroutine `t` to its end. */
  ghost predicate CanFinish(s: State, t: nat) {
    exists steps: seq<Step> ::
      RunAll(s, steps).Some? && t < |RunAll(s, steps).value.threads| && RunAll(s, steps).value.threads[t] == Done
  }

  lemma FinishLater(s: State, step: Step, t: nat)
    requires Apply(s, step).Some? && CanFinish(Apply(s, step).value, t)
    ensures CanFinish(s, t)
  {
    var s' := Apply(s, step).value;
    var steps :| RunAll(s', steps).Some? && t < |RunAll(s', steps).value.threads|
                 && RunAll(s', steps).value.threads[t] == Done;
    assert ([step] + steps)[1..] == steps;
    assert RunAll(s, [step] + steps) == RunAll(s', steps);
  }

  lemma FinishNow(s: State, step: Step, t: nat)
    requires Apply(s, step).Some? && t < |Apply(s, step).value.threads| && Apply(s, step).value.threads[t] == Done
    ensures CanFinish(s, t)
  {
    var s' := Apply(s, step).value;
    assert RunAll(s', []) == Some(s');
    FinishLater(s, step, t);
  }

  /** A reader whose slot is free finishes with its next step. */
  lemma FreeReaderFinishes(s: State, t: nat, k: nat)
    requires t < |s.threads| && s.threads[t] == Deliver(k) && k < |s.chans| && s.chans[k].buf == []
    ensures CanFinish(s, t)
  {
    assert Apply(s, Run(t, Ok)) == Some(Goto(Send(s, k, Response), t, Done));
    FinishNow(s, Run(t, Ok), t);
  }

  /** A reader behind a caller that still receives finishes after it. */
  lemma ReaderAfterCaller(s: State, t: nat, k: nat, u: nat)
    requires t < |s.threads| && s.threads[t] == Deliver(k) && k < |s.chans|
    requires u < |s.threads| && s.threads[u] == Waiting(k) && |s.chans[k].buf| == 1
    ensures CanFinish(s, t)
  {
    var s' := Goto(Receive(s, k), u, Done);
    assert Apply(s, Run(u, Ok)) == Some(s');
    FreeReaderFinishes(s', t, k);
    FinishLater(s, Run(u, Ok), t);
  }

  /**
   Exactly which readers get through: in every reachable state, a reader that is about to deliver can
   still be brought to its end by some schedule, unless its caller gave up after a failed send and
   the close error already fills the slot.
   */
  lemma ReaderFinishesIff(s: State, t: nat, k: nat)
    requires Reachable(s) && t < |s.threads| && s.threads[t] == Deliver(k)
    ensures k < |s.chans|
    ensures CanFinish(s, t) <==> !(s.chans[k].abandoned && s.chans[k].buf == [ConnectionClosed])
  {
    ReachableInv(s);
    assert ThreadOk(s, t) && ChanOk(s, k);
    if LeftBehind(s, t, k) {
      forall steps: seq<Step> | RunAll(s, steps).Some? ensures LeftBehind(RunAll(s, steps).value, t, k) {
        LeftForGood(s, steps, t, k);
      }
    } else {
      DeliverableFinishes(s, t, k);
    }
  }

  lemma DeliverableFinishes(s: State, t: nat, k: nat)
    requires t < |s.threads| && ThreadOk(s, t) && s.threads[t] == Deliver(k) && k < |s.chans| && ChanOk(s, k)
    requires !LeftBehind(s, t, k)
    ensures CanFinish(s, t)
  {
    var ch := s.chans[k];
    if ch.buf == [] {
      FreeReaderFinishes(s, t, k);
    } else {
      var reply := ch.buf[0];
      assert reply in ch.buf && ch.buf == [reply] && ch.received == 0;
      assert reply != Response && !ch.abandoned;
      if s.threads[ch.caller] == Waiting(k) {
        ReaderAfterCaller(s, t, k, ch.caller);
      } else {
        var s' := Goto(s, ch.caller, Waiting(k));
        assert s.threads[ch.caller] == Sending(k) && Ready(s, ch.caller);
        assert Apply(s, Run(ch.caller, Ok)) == Some(s');
        ReaderAfterCaller(s', t, k, ch.caller);
        FinishLater(s, Run(ch.caller, Ok), t);
      }
    }
  }

  // ---------------------------------------------------------------- a run that leaves a reader behind

  lemma RunAllSnoc(s: State, steps: seq<Step>, step: Step)
    requires RunAll(s, steps).Some?
    ensures RunAll(s, steps + [step]) == Apply(RunAll(s, steps).value, step)
    decreases steps
  {
    if steps == [] {
      assert (steps + [step])[1..] == [];
    } else {
      assert (steps + [step])[0] == steps[0] && (steps + [step])[1..] == steps[1..] + [step];
      RunAllSnoc(Apply(s, steps[0]).value, steps[1..], step);
    }
  }

  /** From one reachable state to the next, given field by field. */
  lemma Advance(s: State, step: Step, next: State)
    requires Reachable(s) && Apply(s, step).Some?
    requires Apply(s, step).value.conns == next.conns && Apply(s, step).value.chans == next.chans
    requires Apply(s, step).value.cmap == next.cmap && Apply(s, step).value.mapLock == next.mapLock
    requires Apply(s, step).value.threads == next.threads
    ensures Reachable(next)
  {
    var steps: seq<Step> :| RunAll(INITIAL, steps) == Some(s);
    RunAllSnoc(INITIAL, steps, step);
  }

  /** A caller looks up its connection and locks it. */
  lemma CallLocks() returns (s: State)
    ensures Reachable(s)
    ensures s == State([Conn("ws:a", Init, map[], 0, Some(0), 0, 0)], [], map["ws:a" := 0], None, [Locked(0, CallJob)])
  {
    assert RunAll(INITIAL, []) == Some(INITIAL);
    var a := "ws:a";
    var s1 := State([], [], map[], None, [NeedConn(a, CallJob)]);
    Advance(INITIAL, SpawnCall(a), s1);
    var s2 := State([], [], map[], Some(0), [InGetConn(a, CallJob)]);
    Advance(s1, Run(0, Ok), s2);
    var s3 := State([Conn(a, Init, map[], 0, None, 0, 0)], [], map[a := 0], None, [NeedLock(0, CallJob)]);
    Advance(s2, Run(0, Ok), s3);
    s := State([Conn(a, Init, map[], 0, Some(0), 0, 0)], [], map[a := 0], None, [Locked(0, CallJob)]);
    Advance(s3, Run(0, Ok), s);
  }

  /** It dials and registers request 0; the response is read before the send reports an error. */
  lemma CallSends() returns (s: State)
    ensures Reachable(s)
    ensures s == Shot(Conn("ws:a", Connected, map[0 := 0], 1, None, 0, 0), [], false, [Sending(0)])
  {
    var a := "ws:a";
    var s4 := CallLocks();
    var s5 := State([Conn(a, Connected, map[], 0, Some(0), 0, 0)], [], map[a := 0], None, [Locked(0, CallJob)]);
    Advance(s4, Run(0, Ok), s5);
    s := Shot(Conn(a, Connected, map[0 := 0], 1, None, 0, 0), [], false, [Sending(0)]);
    Advance(s5, Run(0, Ok), s);
  }

  lemma SendFails() returns (s: State)
    ensures Reachable(s)
    ensures s == Shot(Conn("ws:a", Connected, map[0 := 0], 1, None, 0, 0), [], true, [Done, READER])
  {
    var c := Conn("ws:a", Connected, map[0 := 0], 1, None, 0, 0);
    var s6 := CallSends();
    var s7 := Shot(c, [], false, [Sending(0), READER]);
    Advance(s6, SpawnResponse(0, 0), s7);
    s := Shot(c, [], true, [Done, READER]);
    Advance(s7, Run(0, Fail), s);
  }

  const READER := NeedLock(0, ResponseJob(0))

  /** One connection to "ws:a", still mapped, with one registered request that nobody received. */
  function Shot(conn: Conn, buf: seq<Reply>, gaveUp: bool, threads: seq<Pc>): State {
    State([conn], [Chan(0, 0, 0, buf, |buf|, 0, None, gaveUp)], map["ws:a" := 0], None, threads)
  }

  /** A close marks the connection closed and fills the reply slot. */
  lemma CloseFillsSlot() returns (s: State)
    ensures Reachable(s)
    ensures s == Shot(Conn("ws:a", Closed, map[0 := 0], 1, Some(2), 0, 0), [ConnectionClosed], true,
                      [Done, READER, Closing(0, {})])
  {
    var c := Conn("ws:a", Connected, map[0 := 0], 1, None, 0, 0);
    var s8 := SendFails();
    var s9 := Shot(c, [], true, [Done, READER, NeedLock(0, CloseJob)]);
    Advance(s8, SpawnClose(0), s9);
    var s10 := Shot(c.(lock := Some(2)), [], true, [Done, READER, Locked(0, CloseJob)]);
    Advance(s9, Run(2, Ok), s10);
    var s11 := Shot(c.(lock := Some(2), phase := Closed), [], true, [Done, READER, Closing(0, {0})]);
    assert c.pending.Keys == {0};
    Advance(s10, Run(2, Ok), s11);
    s := Shot(c.(lock := Some(2), phase := Closed), [ConnectionClosed], true, [Done, READER, Closing(0, {})]);
    assert {0} - {0} == {} && s11.chans[0].buf + [ConnectionClosed] == [ConnectionClosed];
    Advance(s11, Run(2, Pick(0)), s);
  }

  /** The close removes the connection from the map, starts a reconnect and unlocks. */
  lemma CloseFinishes() returns (s: State)
    ensures Reachable(s)
    ensures s == Shot(Conn("ws:a", Closed, map[0 := 0], 1, None, 1, 1), [ConnectionClosed], true,
                      [Done, READER, Done, NeedConn("ws:a", ReconnectJob)]).(cmap := map[])
  {
    var c := Conn("ws:a", Closed, map[0 := 0], 1, Some(2), 0, 0);
    var full := [ConnectionClosed];
    var s12 := CloseFillsSlot();
    var s13 := Shot(c, full, true, [Done, READER, NeedMap(0)]);
    Advance(s12, Run(2, Ok), s13);
    var s14 := Shot(c, full, true, [Done, READER, InRemove(0)]).(mapLock := Some(2));
    Advance(s13, Run(2, Ok), s14);
    var gone := c.(removals := 1, reconnects := 1);
    var again := NeedConn("ws:a", ReconnectJob);
    var s15 := Shot(gone, full, true, [Done, READER, Leaving(0), again]).(cmap := map[]);
    Advance(s14, Run(2, Ok), s15);
    s := Shot(gone.(lock := None), full, true, [Done, READER, Done, again]).(cmap := map[]);
    Advance(s15, Run(2, Ok), s);
  }

  /**
   A reader can be left behind: a caller whose send failed, a close that fills the slot nobody will
   empty, and a response that was read before the close but is handled after it.
   */
  lemma ReaderCanBeLeft() returns (s: State)
    ensures Reachable(s) && LeftBehind(s, 1, 0)
  {
    var gone := Conn("ws:a", Closed, map[0 := 0], 1, None, 1, 1);
    var again := NeedConn("ws:a", ReconnectJob);
    var s16 := CloseFinishes();
    var s17 := s16.(conns := [gone.(lock := Some(1))], threads := [Done, Locked(0, ResponseJob(0)), Done, again]);
    Advance(s16, Run(1, Ok), s17);
    s := s16.(conns := [gone.(pending := map[])], chans := [s16.chans[0].(taker := Some(1))],
              threads := [Done, Deliver(0), Done, again]);
    Advance(s17, Run(1, Ok), s);
  }
}
