/**
 The protocol does no work of its own accord: a potential that every step uses up, except those of
 the environment and a dial that fails, bounds every run, and what runs out of steps is quiescent.
 */
module RpcProgress {
  import opened Wrappers
  import opened RpcProtocol
  import opened RpcSafety
  import opened RpcTheorems

  // ---------------------------------------------------------------- the potential

  /** The work left once a goroutine holds the connection lock, apart from waking waiters. */
  function JobWork(j: Job): nat {
    if j.CloseJob? then 13 else 4
  }

  /** The work left for one goroutine, and for the reconnect it may yet start. */
  function Work(pc: Pc): nat {
    match pc
    case NeedConn(_, j) => JobWork(j) + 4
    case InGetConn(_, j) => JobWork(j) + 3
    case NeedLock(_, j) => JobWork(j) + 1
    case Locked(_, j) => JobWork(j)
    case Closing(_, todo) => 12 + |todo|
    case NeedMap(_) => 11
    case InRemove(_) => 10
    case Leaving(_) => 1
    case Sending(_) => 2
    case Waiting(_) => 1
    case Deliver(_) => 1
    case Done => 0
  }

  /** The waiters a close would have to wake, and the dial that has yet to happen. */
  function Load(conn: Conn): nat {
    match conn.phase
    case Init => |conn.pending| + 1
    case Connected => |conn.pending|
    case Closed => 0
  }

  function Works(threads: seq<Pc>): nat {
    if threads == [] then 0 else Work(threads[0]) + Works(threads[1..])
  }

  function Loads(conns: seq<Conn>): nat {
    if conns == [] then 0 else Load(conns[0]) + Loads(conns[1..])
  }

  function Potential(s: State): nat {
    Works(s.threads) + Loads(s.conns)
  }

  // ---------------------------------------------------------------- sums

  lemma {:induction false} WorksSet(threads: seq<Pc>, t: nat, pc: Pc)
    requires t < |threads|
    ensures Works(threads[t := pc]) + Work(threads[t]) == Works(threads) + Work(pc)
  {
    var after := threads[t := pc];
    if t == 0 {
      assert after[1..] == threads[1..];
    } else {
      assert after[1..] == threads[1..][t - 1 := pc];
      WorksSet(threads[1..], t - 1, pc);
    }
  }

  lemma {:induction false} WorksAdd(threads: seq<Pc>, pc: Pc)
    ensures Works(threads + [pc]) == Works(threads) + Work(pc)
  {
    if threads == [] {
      assert (threads + [pc])[1..] == [];
    } else {
      assert (threads + [pc])[1..] == threads[1..] + [pc];
      WorksAdd(threads[1..], pc);
    }
  }

  lemma {:induction false} LoadsSet(conns: seq<Conn>, c: nat, conn: Conn)
    requires c < |conns|
    ensures Loads(conns[c := conn]) + Load(conns[c]) == Loads(conns) + Load(conn)
  {
    var after := conns[c := conn];
    if c == 0 {
      assert after[1..] == conns[1..];
    } else {
      assert after[1..] == conns[1..][c - 1 := conn];
      LoadsSet(conns[1..], c - 1, conn);
    }
  }

  lemma {:induction false} LoadsAdd(conns: seq<Conn>, conn: Conn)
    ensures Loads(conns + [conn]) == Loads(conns) + Load(conn)
  {
    if conns == [] {
      assert (conns + [conn])[1..] == [];
    } else {
      assert (conns + [conn])[1..] == conns[1..] + [conn];
      LoadsAdd(conns[1..], conn);
    }
  }

  /** One goroutine moves and its connection changes: what that does to the potential. */
  lemma Moved(s: State, s': State, t: nat, pc: Pc, c: nat, conn: Conn)
    requires t < |s.threads| && c < |s.conns|
    requires s'.threads == s.threads[t := pc] && s'.conns == s.conns[c := conn]
    ensures Potential(s') + Work(s.threads[t]) + Load(s.conns[c]) == Potential(s) + Work(pc) + Load(conn)
  {
    WorksSet(s.threads, t, pc);
    LoadsSet(s.conns, c, conn);
  }

  // ---------------------------------------------------------------- one step

  /** The step is a dial that fails. */
  predicate FailedDial(s: State, step: Step) {
    && step.Run? && step.choice.Fail? && step.thread < |s.threads| && s.threads[step.thread].Locked?
    && s.threads[step.thread].conn < |s.conns| && s.conns[s.threads[step.thread].conn].phase.Init?
    && (s.threads[step.thread].job.CallJob? || s.threads[step.thread].job.ReconnectJob?)
  }

  /** What a step may add to the potential, plus one: only the environment and a failed dial add anything. */
  function Cost(s: State, step: Step): nat {
    match step
    case SpawnCall(_) => 9
    case SpawnClose(_) => 15
    case SpawnResponse(_, _) => 6
    case Run(_, _) => if FailedDial(s, step) then 8 else 0
  }

  lemma PendingAdd(m: map<nat, nat>, id: nat, k: nat)
    ensures |m[id := k]| <= |m| + 1 && |m - {id}| <= |m|
  {
    assert m[id := k].Keys == m.Keys + {id} && (m - {id}).Keys == m.Keys - {id};
    assert |m[id := k].Keys| <= |m.Keys| + 1 && |(m - {id}).Keys| <= |m.Keys|;
  }

  lemma DropOne(todo: set<nat>, id: nat)
    requires id in todo
    ensures |todo - {id}| == |todo| - 1
  {
  }

  lemma UnlockCosts(s: State, t: nat, c: nat, pc: Pc)
    requires t < |s.threads| && c < |s.conns|
    ensures Potential(Unlock(s, t, c, pc)) + Work(s.threads[t]) == Potential(s) + Work(pc)
  {
    Moved(s, Unlock(s, t, c, pc), t, pc, c, s.conns[c].(lock := None));
  }

  lemma BeginCloseCosts(s: State, t: nat, c: nat)
    requires t < |s.threads| && c < |s.conns| && !s.conns[c].phase.Closed?
    ensures Potential(BeginClose(s, t, c)) + Work(s.threads[t]) <= Potential(s) + 12
    ensures s.conns[c].phase.Init? ==> Potential(BeginClose(s, t, c)) + Work(s.threads[t]) <= Potential(s) + 11
  {
    var pending := s.conns[c].pending;
    assert |pending.Keys| == |pending|;
    Moved(s, BeginClose(s, t, c), t, Closing(c, pending.Keys), c, s.conns[c].(phase := Closed));
  }

  lemma DialCosts(s: State, c: nat)
    requires c < |s.conns| && s.conns[c].phase.Init?
    ensures Potential(SetConn(s, c, s.conns[c].(phase := Connected))) < Potential(s)
  {
    LoadsSet(s.conns, c, s.conns[c].(phase := Connected));
  }

  lemma RegisterCosts(s: State, t: nat, c: nat)
    requires t < |s.threads| && c < |s.conns| && s.conns[c].phase.Connected?
    ensures Potential(RpcProtocol.Register(s, t, c)) + Work(s.threads[t]) <= Potential(s) + 3
  {
    var conn, k := s.conns[c], |s.chans|;
    var conn' := conn.(pending := conn.pending[conn.nextId := k], nextId := conn.nextId + 1, lock := None);
    PendingAdd(conn.pending, conn.nextId, k);
    assert RpcProtocol.Register(s, t, c).conns == s.conns[c := conn'];
    Moved(s, RpcProtocol.Register(s, t, c), t, Sending(k), c, conn');
  }

  lemma TakeCosts(s: State, t: nat, c: nat, id: nat)
    requires t < |s.threads| && c < |s.conns| && PendingInRange(s, s.conns[c])
    ensures Potential(RpcProtocol.TakePending(s, t, c, id)) + Work(s.threads[t]) <= Potential(s) + 1
  {
    var conn := s.conns[c];
    if id in conn.pending {
      var conn' := conn.(pending := conn.pending - {id}, lock := None);
      PendingAdd(conn.pending, id, 0);
      assert RpcProtocol.TakePending(s, t, c, id).conns == s.conns[c := conn'];
      Moved(s, RpcProtocol.TakePending(s, t, c, id), t, Deliver(conn.pending[id]), c, conn');
    } else {
      UnlockCosts(s, t, c, Done);
    }
  }

  lemma UnderLockCosts(s: State, t: nat, choice: Choice)
    requires t < |s.threads| && Ready(s, t) && s.threads[t].Locked? && Exec(s, t, choice).Some?
    ensures Potential(Exec(s, t, choice).value) + 1 <= Potential(s) + Cost(s, Run(t, choice))
  {
    var c := s.threads[t].conn;
    UnlockCosts(s, t, c, Done);
    if !s.conns[c].phase.Closed? { BeginCloseCosts(s, t, c); }
    if s.conns[c].phase.Init? { DialCosts(s, c); }
    if s.conns[c].phase.Connected? { RegisterCosts(s, t, c); }
    if s.threads[t].job.ResponseJob? { TakeCosts(s, t, c, s.threads[t].job.req); }
  }

  lemma ClosingCosts(s: State, t: nat, choice: Choice)
    requires t < |s.threads| && Ready(s, t) && s.threads[t].Closing? && Exec(s, t, choice).Some?
    ensures Potential(Exec(s, t, choice).value) < Potential(s)
  {
    var todo, s' := s.threads[t].todo, Exec(s, t, choice).value;
    if todo != {} { DropOne(todo, choice.req); }
    assert s'.conns == s.conns;
    WorksSet(s.threads, t, s'.threads[t]);
  }

  lemma RemoveCosts(s: State, t: nat, c: nat)
    requires t < |s.threads| && c < |s.conns| && s.threads[t] == InRemove(c)
    ensures Potential(RpcProtocol.RemoveConnection(s, t, c)) < Potential(s)
  {
    var s' := RpcProtocol.RemoveConnection(s, t, c);
    var moved, reconnect := s.threads[t := Leaving(c)], NeedConn(s.conns[c].addr, ReconnectJob);
    WorksSet(s.threads, t, Leaving(c));
    WorksAdd(moved, reconnect);
    SameLoad(s, s', c);
    assert s'.threads == moved || s'.threads == moved + [reconnect];
  }

  lemma SameLoad(s: State, s': State, c: nat)
    requires c < |s.conns| == |s'.conns| && s'.conns == s.conns[c := s'.conns[c]]
    requires s'.conns[c].phase == s.conns[c].phase && s'.conns[c].pending == s.conns[c].pending
    ensures Loads(s'.conns) == Loads(s.conns)
  {
    LoadsSet(s.conns, c, s'.conns[c]);
  }

  lemma GetConnCosts(s: State, t: nat, choice: Choice)
    requires t < |s.threads| && Ready(s, t) && s.threads[t].InGetConn?
    ensures Potential(Exec(s, t, choice).value) < Potential(s)
  {
    var a, j := s.threads[t].addr, s.threads[t].job;
    var s' := Exec(s, t, choice).value;
    WorksSet(s.threads, t, s'.threads[t]);
    LoadsAdd(s.conns, Conn(a, Init, map[], 0, None, 0, 0));
  }

  lemma OtherCosts(s: State, t: nat, choice: Choice)
    requires t < |s.threads| && Ready(s, t) && Exec(s, t, choice).Some?
    requires var pc := s.threads[t]; !pc.Locked? && !pc.Closing? && !pc.InRemove? && !pc.InGetConn?
    ensures Potential(Exec(s, t, choice).value) < Potential(s)
  {
    var pc, s' := s.threads[t], Exec(s, t, choice).value;
    WorksSet(s.threads, t, s'.threads[t]);
    if pc.NeedLock? || pc.Leaving? {
      SameLoad(s, s', pc.conn);
    }
  }

  /** Every step uses up potential, but for what the environment and failed dials put in. */
  lemma StepCosts(s: State, step: Step)
    requires Apply(s, step).Some?
    ensures Potential(Apply(s, step).value) + 1 <= Potential(s) + Cost(s, step)
  {
    match step
    case SpawnCall(a) => WorksAdd(s.threads, NeedConn(a, CallJob));
    case SpawnClose(c) => WorksAdd(s.threads, NeedLock(c, CloseJob));
    case SpawnResponse(c, id) => WorksAdd(s.threads, NeedLock(c, ResponseJob(id)));
    case Run(t, choice) =>
      match s.threads[t] {
        case Locked(_, _) => UnderLockCosts(s, t, choice);
        case Closing(_, _) => ClosingCosts(s, t, choice);
        case InRemove(c) => RemoveCosts(s, t, c);
        case InGetConn(_, _) => GetConnCosts(s, t, choice);
        case _ => OtherCosts(s, t, choice);
      }
  }

  // ---------------------------------------------------------------- whole runs

  function TotalCost(s: State, steps: seq<Step>): nat
    requires RunAll(s, steps).Some?
    decreases steps
  {
    if steps == [] then 0 else Cost(s, steps[0]) + TotalCost(Apply(s, steps[0]).value, steps[1..])
  }

  /** Every run is bounded by what the environment asked for and the dials that failed. */
  lemma {:induction false} RunBounded(s: State, steps: seq<Step>)
    requires RunAll(s, steps).Some?
    ensures |steps| + Potential(RunAll(s, steps).value) <= Potential(s) + TotalCost(s, steps)
    decreases steps
  {
    if steps != [] {
      StepCosts(s, steps[0]);
      RunBounded(Apply(s, steps[0]).value, steps[1..]);
    }
  }

  function Spawns(steps: seq<Step>): nat {
    if steps == [] then 0 else (if steps[0].Run? then 0 else 1) + Spawns(steps[1..])
  }

  function FailedDials(s: State, steps: seq<Step>): nat
    requires RunAll(s, steps).Some?
    decreases steps
  {
    if steps == [] then 0
    else (if FailedDial(s, steps[0]) then 1 else 0) + FailedDials(Apply(s, steps[0]).value, steps[1..])
  }

  lemma {:induction false} CostBound(s: State, steps: seq<Step>)
    requires RunAll(s, steps).Some?
    ensures TotalCost(s, steps) <= 15 * Spawns(steps) + 8 * FailedDials(s, steps)
    decreases steps
  {
    if steps != [] { CostBound(Apply(s, steps[0]).value, steps[1..]); }
  }

  /** Every run from the empty state: at most 15 steps for each goroutine spawned and 8 for each failed dial. */
  lemma StepsPerRequest(steps: seq<Step>)
    requires RunAll(INITIAL, steps).Some?
    ensures |steps| <= 15 * Spawns(steps) + 8 * FailedDials(INITIAL, steps)
  {
    RunBounded(INITIAL, steps);
    CostBound(INITIAL, steps);
  }

  /** Left to itself: nothing is spawned and no dial fails. */
  predicate Undisturbed(s: State, steps: seq<Step>)
    requires RunAll(s, steps).Some?
    decreases steps
  {
    steps == [] || (Cost(s, steps[0]) == 0 && Undisturbed(Apply(s, steps[0]).value, steps[1..]))
  }

  lemma {:induction false} UndisturbedCost(s: State, steps: seq<Step>)
    requires RunAll(s, steps).Some? && Undisturbed(s, steps)
    ensures TotalCost(s, steps) == 0
    decreases steps
  {
    if steps != [] { UndisturbedCost(Apply(s, steps[0]).value, steps[1..]); }
  }

  /** No run that is left to itself is longer than the potential it starts from. */
  lemma NoEndlessRun(s: State, steps: seq<Step>)
    requires RunAll(s, steps).Some? && Undisturbed(s, steps)
    ensures |steps| <= Potential(s)
  {
    RunBounded(s, steps);
    UndisturbedCost(s, steps);
  }

  /** Where a goroutine can move at all, it can move without a failed dial. */
  lemma UndisturbedStep(s: State, t: nat, choice: Choice) returns (step: Step)
    requires Apply(s, Run(t, choice)).Some?
    ensures Apply(s, step).Some? && Cost(s, step) == 0
  {
    step := Run(t, if FailedDial(s, Run(t, choice)) then Ok else choice);
  }

  /**
   From every state of the invariant, and so from wherever a run has got to, the goroutines left to
   themselves come to rest.
   */
  lemma {:induction false} ComesToRest(s: State) returns (steps: seq<Step>)
    requires Inv(s)
    ensures RunAll(s, steps).Some? && Undisturbed(s, steps) && Quiescent(RunAll(s, steps).value)
    decreases Potential(s)
  {
    if Quiescent(s) {
      steps := [];
    } else {
      var t, choice :| Apply(s, Run(t, choice)).Some?;
      var step := UndisturbedStep(s, t, choice);
      var s' := Apply(s, step).value;
      StepCosts(s, step);
      StepKeepsInv(s, step);
      var rest := ComesToRest(s');
      steps := [step] + rest;
      assert steps[0] == step && steps[1..] == rest;
    }
  }

  /** At rest is exactly where no undisturbed step is left, so every such run that cannot go on has come to rest. */
  lemma AtRestIff(s: State)
    ensures Quiescent(s) <==> !exists step :: Apply(s, step).Some? && Cost(s, step) == 0
  {
    if !Quiescent(s) {
      var t, choice :| Apply(s, Run(t, choice)).Some?;
      var _ := UndisturbedStep(s, t, choice);
    }
  }

  // ---------------------------------------------------------------- an answer gets through

  /** Goroutine `t` holds the lock of the connection that request `k` is pending on, with its response in hand. */
  predicate Answering(s: State, t: nat, u: nat, k: nat) {
    && t < |s.threads| && u < |s.threads| && k < |s.chans| && s.threads[u] == Waiting(k) && t != u
    && PendingOnOpen(s, k) && s.threads[t] == Locked(s.chans[k].conn, ResponseJob(s.chans[k].req))
    && PendingInRange(s, s.conns[s.chans[k].conn]) && s.chans[k].buf == []
  }

  /** Taking the request, delivering the response and receiving it: the caller is done, the request gone. */
  lemma Delivered(s: State, t: nat, u: nat, k: nat) returns (steps: seq<Step>, s': State)
    requires Answering(s, t, u, k)
    ensures RunAll(s, steps) == Some(s') && |steps| == 3 && |s'.threads| == |s.threads| && s'.threads[u] == Done
    ensures |s'.conns| == |s.conns| && s.chans[k].req !in s'.conns[s.chans[k].conn].pending
    ensures |s'.chans| == |s.chans| && s'.chans[k].received == s.chans[k].received + 1 && s'.chans[k].buf == []
  {
    var c, id := s.chans[k].conn, s.chans[k].req;
    var s1 := RpcProtocol.TakePending(s, t, c, id);
    assert Apply(s, Run(t, Ok)) == Some(s1) && s1.threads[t] == Deliver(k) && s1.chans[k].buf == [];
    var s2 := Goto(Send(s1, k, Response), t, Done);
    assert Apply(s1, Run(t, Ok)) == Some(s2) && s2.chans[k].buf == [Response];
    s' := Goto(Receive(s2, k), u, Done);
    assert Apply(s2, Run(u, Ok)) == Some(s');
    steps := [Run(t, Ok), Run(t, Ok), Run(u, Ok)];
    assert steps[1..] == [Run(t, Ok), Run(u, Ok)] && steps[1..][1..] == [Run(u, Ok)] && [Run(u, Ok)][1..] == [];
    assert RunAll(s2, [Run(u, Ok)]) == RunAll(s', []) == Some(s');
    assert RunAll(s1, steps[1..]) == RunAll(s2, [Run(u, Ok)]);
  }

  /**
   In every reachable state a caller whose request is pending on a connection that is up and not
   locked is done five steps after its response arrives, whatever else is pending there.
   */
  lemma AnswerReachesCaller(s: State, u: nat, k: nat) returns (steps: seq<Step>, s': State)
    requires Reachable(s) && u < |s.threads| && s.threads[u] == Waiting(k) && k < |s.chans| && PendingOnOpen(s, k)
    requires s.conns[s.chans[k].conn].lock.None?
    ensures RunAll(s, steps) == Some(s') && |steps| == 5 && steps[0] == SpawnResponse(s.chans[k].conn, s.chans[k].req)
    ensures u < |s'.threads| && s'.threads[u] == Done && k < |s'.chans| && s'.chans[k].received == 1
  {
    ReachableInv(s);
    var c, id, t := s.chans[k].conn, s.chans[k].req, |s.threads|;
    assert ConnOk(s, c) && ChanOk(s, k) && ThreadOk(s, u);
    var s1 := s.(threads := s.threads + [NeedLock(c, ResponseJob(id))]);
    assert Apply(s, SpawnResponse(c, id)) == Some(s1);
    var s2 := Goto(SetConn(s1, c, s1.conns[c].(lock := Some(t))), t, Locked(c, ResponseJob(id)));
    assert Apply(s1, Run(t, Ok)) == Some(s2);
    var rest, s3 := Delivered(s2, t, u, k);
    steps, s' := [SpawnResponse(c, id), Run(t, Ok)] + rest, s3;
    assert steps[1..] == [Run(t, Ok)] + rest && ([Run(t, Ok)] + rest)[1..] == rest;
    assert RunAll(s1, [Run(t, Ok)] + rest) == RunAll(s2, rest);
  }

  // ---------------------------------------------------------------- failed dials are no idle exception

  /** Goroutine `t` is about to look up `a`, which is not mapped, and the map lock is free. */
  predicate Dialing(s: State, t: nat, a: Addr) {
    && t < |s.threads| && s.mapLock.None? && a !in s.cmap
    && (s.threads[t] == NeedConn(a, CallJob) || s.threads[t] == NeedConn(a, ReconnectJob))
  }

  /** It creates a connection, locks it, and fails to dial. */
  lemma DialFails(s: State, t: nat, a: Addr) returns (steps: seq<Step>, s': State)
    requires Dialing(s, t, a)
    ensures RunAll(s, steps) == Some(s') && |steps| == 4 && Spawns(steps) == 0 && |s'.threads| == |s.threads|
    ensures |s'.conns| == |s.conns| + 1 && s'.mapLock.None? && s'.threads[t] == Closing(|s.conns|, {})
    ensures s'.conns[|s.conns|].addr == a && s'.conns[|s.conns|].pending == map[] && s'.cmap == s.cmap[a := |s.conns|]
  {
    var c, j := |s.conns|, s.threads[t].job;
    var s1 := Goto(s.(mapLock := Some(t)), t, InGetConn(a, j));
    assert Apply(s, Run(t, Ok)) == Some(s1);
    var s2 := RpcProtocol.GetConnection(s1, t, a, j);
    assert Apply(s1, Run(t, Ok)) == Some(s2) && s2.conns[c] == Conn(a, Init, map[], 0, None, 0, 0);
    var s3 := Goto(SetConn(s2, c, s2.conns[c].(lock := Some(t))), t, Locked(c, j));
    assert Apply(s2, Run(t, Ok)) == Some(s3);
    s' := BeginClose(s3, t, c);
    assert Apply(s3, Run(t, Fail)) == Some(s') && s3.conns[c].pending.Keys == {};
    steps := FourSteps(s, s1, s2, s3, s', Run(t, Ok), Run(t, Ok), Run(t, Ok), Run(t, Fail));
  }

  lemma FourSteps(s: State, s1: State, s2: State, s3: State, s4: State, a: Step, b: Step, c: Step, d: Step)
    returns (steps: seq<Step>)
    requires Apply(s, a) == Some(s1) && Apply(s1, b) == Some(s2) && Apply(s2, c) == Some(s3) && Apply(s3, d) == Some(s4)
    requires a.Run? && b.Run? && c.Run? && d.Run?
    ensures RunAll(s, steps) == Some(s4) && |steps| == 4 && Spawns(steps) == 0
  {
    steps := [a, b, c, d];
    assert steps[1..] == [b, c, d] && [b, c, d][1..] == [c, d] && [c, d][1..] == [d] && [d][1..] == [];
    assert RunAll(s3, [d]) == RunAll(s4, []) == Some(s4);
    assert RunAll(s1, [b, c, d]) == RunAll(s2, [c, d]) == RunAll(s3, [d]);
    assert Spawns([d]) == 0 && Spawns([c, d]) == 0 && Spawns([b, c, d]) == 0;
  }

  /** The close leaves the map as it was and a new goroutine about to look the address up again. */
  lemma RemovedAgain(s: State, t: nat, c: nat, a: Addr) returns (steps: seq<Step>, s': State)
    requires t < |s.threads| && c < |s.conns| && s.threads[t] == Closing(c, {}) && s.mapLock.None?
    requires s.conns[c].addr == a && s.conns[c].pending == map[] && a in s.cmap && s.cmap[a] == c
    ensures RunAll(s, steps) == Some(s') && |steps| == 4 && Spawns(steps) == 0 && Dialing(s', |s.threads|, a)
  {
    var s1 := Goto(s, t, NeedMap(c));
    assert Apply(s, Run(t, Ok)) == Some(s1);
    var s2 := Goto(s1.(mapLock := Some(t)), t, InRemove(c));
    assert Apply(s1, Run(t, Ok)) == Some(s2);
    var s3 := RpcProtocol.RemoveConnection(s2, t, c);
    assert Apply(s2, Run(t, Ok)) == Some(s3);
    s' := Unlock(s3, t, c, Done);
    assert Apply(s3, Run(t, Ok)) == Some(s');
    steps := FourSteps(s, s1, s2, s3, s', Run(t, Ok), Run(t, Ok), Run(t, Ok), Run(t, Ok));
  }

  lemma {:induction false} Chained(s: State, a: seq<Step>, b: seq<Step>)
    requires RunAll(s, a).Some?
    ensures RunAll(s, a + b) == RunAll(RunAll(s, a).value, b) && Spawns(a + b) == Spawns(a) + Spawns(b)
    decreases a
  {
    if a == [] {
      assert a + b == b;
    } else {
      assert (a + b)[0] == a[0] && (a + b)[1..] == a[1..] + b;
      Chained(Apply(s, a[0]).value, a[1..], b);
    }
  }

  lemma {:induction false} Redials(s: State, t: nat, a: Addr, n: nat) returns (steps: seq<Step>)
    requires Dialing(s, t, a)
    ensures RunAll(s, steps).Some? && |steps| == 8 * n && Spawns(steps) == 0
    decreases n
  {
    if n == 0 {
      steps := [];
    } else {
      var first, s1 := DialFails(s, t, a);
      var second, s2 := RemovedAgain(s1, t, |s.conns|, a);
      var rest := Redials(s2, |s1.threads|, a, n - 1);
      Chained(s1, second, rest);
      Chained(s, first, second + rest);
      steps := first + (second + rest);
    }
  }

  /** While every dial fails, a single request keeps reconnecting for as long as one likes. */
  lemma RedialsForever(n: nat) returns (steps: seq<Step>)
    ensures RunAll(INITIAL, steps).Some? && |steps| == 8 * n + 1 && Spawns(steps) == 1
  {
    var s := Apply(INITIAL, SpawnCall("ws:a")).value;
    var rest := Redials(s, 0, "ws:a", n);
    steps := [SpawnCall("ws:a")] + rest;
    assert steps[0] == SpawnCall("ws:a") && steps[1..] == rest;
  }
}
