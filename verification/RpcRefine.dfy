/**
 The objects refine the transition system: under a relation between the objects and a state of
 RpcProtocol, every critical section of RpcConn does what its step, or its run of steps, does.
 */
module RpcRefine {
  import opened Wrappers
  import opened RpcProtocol
  import opened RpcSafety
  import opened RpcTheorems
  import opened RpcConn

  // ---------------------------------------------------------------- a close as a run of steps

  /** Channel `k` belongs to one of the requests `todo` pending on connection `c`. */
  predicate Owed(s: State, c: nat, todo: set<nat>, k: nat) {
    && c < |s.conns| && k < |s.chans| && s.chans[k].conn == c
    && s.chans[k].req in todo && s.chans[k].req in s.conns[c].pending && s.conns[c].pending[s.chans[k].req] == k
  }

  /**
   Between `s` and `s'` the channels owed to `todo` received the close error, and nothing else
   happened to a channel.
   */
  predicate Woken(s: State, s': State, c: nat, todo: set<nat>) {
    && |s'.chans| == |s.chans|
    && forall k :: 0 <= k < |s.chans| ==>
         && s'.chans[k].conn == s.chans[k].conn && s'.chans[k].req == s.chans[k].req
         && s'.chans[k].buf == if Owed(s, c, todo, k) then [ConnectionClosed] else s.chans[k].buf
  }

  lemma WakeStep(s: State, t: nat, c: nat, todo: set<nat>, id: nat) returns (s1: State)
    requires Inv(s) && t < |s.threads| && s.threads[t] == Closing(c, todo) && id in todo
    ensures Apply(s, Run(t, Pick(id))) == Some(s1) && Inv(s1)
    ensures s1.threads == s.threads[t := Closing(c, todo - {id})]
    ensures s1.conns == s.conns && s1.cmap == s.cmap && s1.mapLock == s.mapLock && Woken(s, s1, c, {id})
  {
    InvReady(s, t);
    assert ThreadOk(s, t) && ConnOk(s, c);
    var k := s.conns[c].pending[id];
    assert ChanOk(s, k);
    s1 := Wake(s, t, c, todo, id);
    WakeKeeps(s, t, c, todo, id);
  }

  lemma WokenThen(s: State, s1: State, s2: State, c: nat, todo: set<nat>, id: nat)
    requires s1.conns == s.conns && Woken(s, s1, c, {id}) && Woken(s1, s2, c, todo - {id}) && id in todo
    ensures Woken(s, s2, c, todo)
  {
  }

  /** The wake-up loop runs to its end, waking everyone it set out to wake. */
  lemma {:induction false} WakeRun(s: State, t: nat, c: nat, todo: set<nat>) returns (steps: seq<Step>, s': State)
    requires Inv(s) && t < |s.threads| && s.threads[t] == Closing(c, todo)
    ensures RunAll(s, steps) == Some(s') && Inv(s') && s'.threads == s.threads[t := Closing(c, {})]
    ensures s'.conns == s.conns && s'.cmap == s.cmap && s'.mapLock == s.mapLock && Woken(s, s', c, todo)
    decreases todo
  {
    if todo == {} {
      steps, s' := [], s;
    } else {
      var id :| id in todo;
      var s1 := WakeStep(s, t, c, todo, id);
      var rest, s2 := WakeRun(s1, t, c, todo - {id});
      steps, s' := [Run(t, Pick(id))] + rest, s2;
      assert steps[0] == Run(t, Pick(id)) && steps[1..] == rest;
      WokenThen(s, s1, s2, c, todo, id);
    }
  }

  /** What a whole close of connection `c` does to the shared state. */
  predicate Closes(s: State, s': State, c: nat) {
    && c < |s.conns| == |s'.conns| && Woken(s, s', c, s.conns[c].pending.Keys)
    && (forall d :: 0 <= d < |s.conns| && d != c ==> s'.conns[d] == s.conns[d])
    && s'.conns[c].addr == s.conns[c].addr && s'.conns[c].phase.Closed?
    && s'.conns[c].pending == s.conns[c].pending && s'.conns[c].nextId == s.conns[c].nextId
    && s.conns[c].addr in s.cmap && s.cmap[s.conns[c].addr] == c && s'.cmap == s.cmap - {s.conns[c].addr}
  }

  lemma RunThen(s: State, steps: seq<Step>, mid: State, step: Step, s': State)
    requires RunAll(s, steps) == Some(mid) && Apply(mid, step) == Some(s')
    ensures RunAll(s, steps + [step]) == Some(s')
  {
    RunAllSnoc(s, steps, step);
  }

  /** From the end of the wake-up loop to the removal from the map. */
  lemma RemoveRun(s: State, t: nat, c: nat) returns (steps: seq<Step>, s': State)
    requires Inv(s) && t < |s.threads| && s.threads[t] == Closing(c, {}) && s.mapLock.None?
    ensures c < |s.conns| && RunAll(s, steps) == Some(s') && t < |s'.threads| && s'.threads[t] == Leaving(c)
    ensures s'.chans == s.chans && |s'.conns| == |s.conns|
    ensures s.conns[c].addr in s.cmap && s.cmap[s.conns[c].addr] == c && s'.cmap == s.cmap - {s.conns[c].addr}
    ensures forall d :: 0 <= d < |s.conns| && d != c ==> s'.conns[d] == s.conns[d]
    ensures s'.conns[c] == s.conns[c].(removals := s'.conns[c].removals, reconnects := s'.conns[c].reconnects)
  {
    InvReady(s, t);
    assert ThreadOk(s, t) && ConnOk(s, c);
    var two, s2 := LocksMap(s, t, c);
    s' := RemoveConnection(s2, t, c);
    RunThen(s, two, s2, Run(t, Ok), s');
    steps := two + [Run(t, Ok)];
  }

  lemma LocksMap(s: State, t: nat, c: nat) returns (steps: seq<Step>, s': State)
    requires t < |s.threads| && Ready(s, t) && s.threads[t] == Closing(c, {}) && s.mapLock.None?
    ensures RunAll(s, steps) == Some(s')
    ensures s' == s.(mapLock := Some(t), threads := s.threads[t := InRemove(c)])
  {
    var s1 := Goto(s, t, NeedMap(c));
    s' := Goto(s1.(mapLock := Some(t)), t, InRemove(c));
    assert RunAll(s, []) == Some(s);
    RunThen(s, [], s, Run(t, Ok), s1);
    RunThen(s, [] + [Run(t, Ok)], s1, Run(t, Ok), s');
    steps := [] + [Run(t, Ok)] + [Run(t, Ok)];
  }

  lemma {:induction false} RunConcat(s: State, a: seq<Step>, mid: State, b: seq<Step>, s': State)
    requires RunAll(s, a) == Some(mid) && RunAll(mid, b) == Some(s')
    ensures RunAll(s, a + b) == Some(s')
    decreases a
  {
    if a == [] {
      assert a + b == b;
    } else {
      assert (a + b)[0] == a[0] && (a + b)[1..] == a[1..] + b;
      RunConcat(Apply(s, a[0]).value, a[1..], mid, b, s');
    }
  }

  /** Goroutine `t` holds the lock of `c` and is about to close it: it was asked to, or its dial fails. */
  predicate AboutToClose(s: State, t: nat, c: nat) {
    && c < |s.conns| && t < |s.threads| && s.threads[t].Locked? && s.threads[t].conn == c
    && !s.conns[c].phase.Closed?
    && (s.threads[t].job.CloseJob? || (s.conns[c].phase.Init? && !s.threads[t].job.ResponseJob?))
  }

  /** The whole close is a run of the transition system, possible whenever the map lock is free. */
  lemma CloseRun(s: State, t: nat, c: nat) returns (steps: seq<Step>, s': State)
    requires Inv(s) && AboutToClose(s, t, c) && s.mapLock.None?
    ensures RunAll(s, steps) == Some(s') && Closes(s, s', c) && t < |s'.threads| && s'.threads[t] == Leaving(c)
  {
    InvReady(s, t);
    var s1 := BeginClose(s, t, c);
    BeginCloseKeeps(s, t, c, s.threads[t].job);
    assert Apply(s, Run(t, Fail)) == Some(s1);
    assert RunAll(s, []) == Some(s);
    RunThen(s, [], s, Run(t, Fail), s1);
    var wakes, s2 := WakeRun(s1, t, c, s.conns[c].pending.Keys);
    var removes, s3 := RemoveRun(s2, t, c);
    RunConcat(s, [] + [Run(t, Fail)], s1, wakes, s2);
    RunConcat(s, [] + [Run(t, Fail)] + wakes, s2, removes, s3);
    steps, s' := [] + [Run(t, Fail)] + wakes + removes, s3;
  }

  /** The state after a caller with the lock of connection `c` has registered its request. */
  predicate Registered(s: State, s': State, t: nat, c: nat)
    requires t < |s.threads| && c < |s.conns|
  {
    var conn, k := s.conns[c], |s.chans|;
    && s'.conns == s.conns[c := conn.(phase := Connected, lock := None, nextId := conn.nextId + 1,
                                      pending := conn.pending[conn.nextId := k])]
    && s'.chans == s.chans + [Chan(c, conn.nextId, t, [], 0, 0, None, false)]
    && s'.threads == s.threads[t := Sending(k)] && s'.cmap == s.cmap && s'.mapLock == s.mapLock
  }

  /** A caller with the lock of a connection that is not closed registers, after dialing if it has to. */
  lemma RegisterRun(s: State, t: nat, c: nat) returns (steps: seq<Step>, s': State)
    requires t < |s.threads| && Ready(s, t) && s.threads[t] == Locked(c, CallJob) && !s.conns[c].phase.Closed?
    ensures RunAll(s, steps) == Some(s') && Registered(s, s', t, c)
  {
    assert RunAll(s, []) == Some(s);
    var s1 := if s.conns[c].phase.Init? then SetConn(s, c, s.conns[c].(phase := Connected)) else s;
    steps := [];
    if s.conns[c].phase.Init? {
      RunThen(s, [], s, Run(t, Ok), s1);
      steps := [] + [Run(t, Ok)];
    }
    s' := RpcProtocol.Register(s1, t, c);
    RunThen(s, steps, s1, Run(t, Ok), s');
    steps := steps + [Run(t, Ok)];
  }

  /**
   The step of a caller that holds the lock of a connection that is up: whatever else is pending, it
   registers exactly one request, its own, and goes on to send it.  On a closed connection it
   registers nothing, and a reconnector registers nothing on either.
   */
  lemma CallStep(s: State, t: nat, choice: Choice)
    requires t < |s.threads| && Ready(s, t) && s.threads[t].Locked? && !s.conns[s.threads[t].conn].phase.Init?
    requires s.threads[t].job.CallJob? || s.threads[t].job.ReconnectJob?
    ensures var c, s' := s.threads[t].conn, Apply(s, Run(t, choice));
            && s'.Some?
            && if s.threads[t].job.CallJob? && s.conns[c].phase.Connected? then Registered(s, s'.value, t, c)
               else
                 && s'.value.chans == s.chans && s'.value.threads == s.threads[t := Done] && s'.value.cmap == s.cmap
                 && s'.value.conns == s.conns[c := s.conns[c].(lock := None)]
  {
    var c := s.threads[t].conn;
    assert RpcProtocol.Register(s, t, c).conns[c].pending == s.conns[c].pending[s.conns[c].nextId := |s.chans|];
  }

  lemma ReconnectRun(s: State, t: nat, c: nat) returns (steps: seq<Step>)
    requires t < |s.threads| && Ready(s, t) && s.threads[t] == Locked(c, ReconnectJob) && !s.conns[c].phase.Closed?
    ensures var s1 := if s.conns[c].phase.Init? then SetConn(s, c, s.conns[c].(phase := Connected)) else s;
            RunAll(s, steps) == Some(Unlock(s1, t, c, Done))
  {
    assert RunAll(s, []) == Some(s);
    var s1 := if s.conns[c].phase.Init? then SetConn(s, c, s.conns[c].(phase := Connected)) else s;
    steps := [];
    if s.conns[c].phase.Init? {
      RunThen(s, [], s, Run(t, Ok), s1);
      steps := [] + [Run(t, Ok)];
    }
    RunThen(s, steps, s1, Run(t, Ok), Unlock(s1, t, c, Done));
    steps := steps + [Run(t, Ok)];
  }

  /** Every pending request of `c` has a channel that says so. */
  predicate OwnsPending(s: State, c: nat) {
    && c < |s.conns|
    && forall id :: id in s.conns[c].pending ==>
         && s.conns[c].pending[id] < |s.chans|
         && s.chans[s.conns[c].pending[id]].conn == c && s.chans[s.conns[c].pending[id]].req == id
  }

  lemma InvOwnsPending(s: State, c: nat)
    requires Inv(s) && c < |s.conns|
    ensures OwnsPending(s, c)
  {
    assert ConnOk(s, c);
  }

  // ---------------------------------------------------------------- the relation

  /** The two maps agree, once the indices of `m` are read as objects. */
  predicate Agree<K, T(==)>(om: map<K, T>, m: map<K, nat>, objects: seq<T>) {
    om.Keys == m.Keys && forall k :: k in m ==> m[k] < |objects| && om[k] == objects[m[k]]
  }

  lemma AgreeMore<K, T>(om: map<K, T>, m: map<K, nat>, objects: seq<T>, x: T, k: K)
    requires Agree(om, m, objects)
    ensures Agree(om, m, objects + [x]) && Agree(om[k := x], m[k := |objects|], objects + [x])
  {
  }

  /** Where GetConnection leads: to the lock of the mapped connection, or of a new one mapped now. */
  lemma GotConnection(s: State, t: nat, a: Addr, j: Job)
    requires t < |s.threads|
    ensures var s', c := RpcProtocol.GetConnection(s, t, a, j), if a in s.cmap then s.cmap[a] else |s.conns|;
            && s'.threads == s.threads[t := NeedLock(c, j)] && s'.chans == s.chans && s'.cmap == s.cmap[a := c]
            && s'.conns == if a in s.cmap then s.conns else s.conns + [Conn(a, Init, map[], 0, None, 0, 0)]
  {
    if a in s.cmap { assert s.cmap[a := s.cmap[a]] == s.cmap; }
  }

  /** What closes a connection: a caller of Close, or a Call or Reconnect whose dial fails. */
  datatype Way = OnRequest | OnCall | OnReconnect

  class Net {
    const rpc: Rpc
    /** The objects behind the indices of a state, in order of creation. */
    ghost var conns: seq<Connection>
    ghost var chans: seq<ReplyChan>

    ghost predicate ConnMatches(s: State, c: nat)
      requires c < |conns| == |s.conns|
      reads this, conns[c]
    {
      var o, a := conns[c], s.conns[c];
      o.address == a.addr && o.state == a.phase && o.nextRequestId == a.nextId && Agree(o.pending, a.pending, chans)
    }

    ghost predicate ChanMatches(s: State, k: nat)
      requires k < |chans| == |s.chans|
      reads this, chans[k]
    {
      s.chans[k].buf == if chans[k].slot.None? then [] else [chans[k].slot.value]
    }

    ghost predicate MapMatches(s: State)
      reads this, rpc
    {
      Agree(rpc.connMap, s.cmap, conns)
    }

    /** The objects are all different. */
    ghost predicate Separate()
      reads this
    {
      && (forall i, j :: 0 <= i < j < |conns| ==> conns[i] != conns[j])
      && (forall i, j :: 0 <= i < j < |chans| ==> chans[i] != chans[j])
    }

    /** The objects are in state `s`, as far as it is shared. */
    ghost predicate Matches(s: State)
      reads this, rpc, conns, chans
    {
      && |conns| == |s.conns| && |chans| == |s.chans| && Separate() && MapMatches(s)
      && (forall c :: 0 <= c < |conns| ==> ConnMatches(s, c))
      && (forall k :: 0 <= k < |chans| ==> ChanMatches(s, k))
    }

    /** A new RPC is in the initial state. */
    constructor ()
      ensures fresh(rpc) && rpc.Valid() && conns == [] && chans == [] && Matches(INITIAL)
    {
      rpc := new Rpc();
      conns, chans := [], [];
    }

    /** Goroutine `t` may take its step on the connection it holds: its references point at something. */
    lemma HolderReady(s: State, t: nat, c: nat)
      requires Matches(s) && c < |conns| && t < |s.threads| && HeldConn(s.threads[t]) == Some(c)
      ensures Ready(s, t)
    {
      assert ConnMatches(s, c);
    }

    /** The locked part of a Call that gets its connection, and what it leaves alone. */
    method DoCall(conn: Connection) returns (chan: ReplyChan)
      requires conn.Valid() && rpc.Valid() && !conn.state.Closed?
      modifies conn, conn.pending.Values, rpc
      ensures conn.Valid() && rpc.Valid() && conn.state.Connected? && fresh(chan) && chan.slot.None?
      ensures conn.pending == old(conn.pending)[old(conn.nextRequestId) := chan]
      ensures conn.nextRequestId == old(conn.nextRequestId) + 1 && rpc.connMap == old(rpc.connMap)
      ensures forall d :: 0 <= d < |conns| && conns[d] != conn ==>
                && conns[d].pending == old(conns[d].pending) && conns[d].nextRequestId == old(conns[d].nextRequestId)
                && conns[d].state == old(conns[d].state)
      ensures forall k :: 0 <= k < |chans| ==> chans[k].slot == old(chans[k].slot)
    {
      var called := conn.BeginCall(rpc, true);
      chan := called;
      forall k | 0 <= k < |chans| ensures chans[k].slot == old(chans[k].slot) {
        WaiterOrNot(old(conn.pending), chans[k]);
      }
    }

    /** A Reconnect that gets its connection; with one that is closed, that or a Call changes nothing. */
    method DoNothing(conn: Connection, calling: bool, dialed: bool)
      requires conn.Valid() && rpc.Valid()
      requires conn.state.Closed? || (!calling && dialed)
      modifies conn, conn.pending.Values, rpc
      ensures conn.Valid() && rpc.Valid() && rpc.connMap == old(rpc.connMap)
      ensures conn.state == if old(conn.state).Closed? then Closed else Connected
      ensures forall d :: 0 <= d < |conns| ==>
                && conns[d].pending == old(conns[d].pending) && conns[d].nextRequestId == old(conns[d].nextRequestId)
                && (conns[d] != conn ==> conns[d].state == old(conns[d].state))
      ensures forall k :: 0 <= k < |chans| ==> chans[k].slot == old(chans[k].slot)
    {
      if calling {
        var _ := conn.BeginCall(rpc, dialed);
      } else {
        var _ := conn.Reconnect(rpc, dialed);
      }
      forall k | 0 <= k < |chans| ensures chans[k].slot == old(chans[k].slot) {
        WaiterOrNot(old(conn.pending), chans[k]);
      }
    }

    lemma WaiterOrNot(pending: map<nat, ReplyChan>, chan: ReplyChan)
      ensures chan in pending.Values ==> exists id :: id in pending && pending[id] == chan
    {
    }

    /**
     Call under the lock of a connection that is up or comes up: the steps that dial, if it has to, and
     register.  The request is the next one and its channel a new one.
     */
    method CallRegisters(conn: Connection, ghost s: State, ghost t: nat, ghost c: nat)
      returns (chan: ReplyChan, ghost steps: seq<Step>, ghost s': State)
      requires Matches(s) && c < |conns| && conns[c] == conn && t < |s.threads| && s.threads[t] == Locked(c, CallJob)
      requires conn.Valid() && rpc.Valid() && !conn.state.Closed?
      modifies `chans, conn, conn.pending.Values, rpc
      ensures RunAll(s, steps) == Some(s') && Matches(s') && conn.Valid() && rpc.Valid() && conns == old(conns)
      ensures chans == old(chans) + [chan] && s'.threads == s.threads[t := Sending(|s.chans|)]
    {
      assert ConnMatches(s, c);
      HolderReady(s, t, c);
      steps, s' := RegisterRun(s, t, c);
      chan := DoCall(conn);
      chans := chans + [chan];
      forall d | 0 <= d < |conns| ensures ConnMatches(s', d) {
        assert old(ConnMatches(s, d));
        AgreeMore(old(conns[d].pending), s.conns[d].pending, old(chans), chan, s.conns[c].nextId);
      }
      forall k | 0 <= k < |chans| ensures ChanMatches(s', k) { if k < |s.chans| { assert old(ChanMatches(s, k)); } }
    }

    /** Reconnect, and with it ConnectUnderLock, of a connection that is not closed and can dial. */
    method ReconnectSucceeds(conn: Connection, ghost s: State, ghost t: nat, ghost c: nat)
      returns (ghost steps: seq<Step>, ghost s': State)
      requires Matches(s) && c < |conns| && conns[c] == conn && t < |s.threads|
      requires s.threads[t] == Locked(c, ReconnectJob)
      requires conn.Valid() && rpc.Valid() && !conn.state.Closed?
      modifies conn, conn.pending.Values, rpc
      ensures RunAll(s, steps) == Some(s') && Matches(s') && conn.Valid() && rpc.Valid()
      ensures s'.threads == s.threads[t := Done] && s'.chans == s.chans
    {
      assert ConnMatches(s, c);
      HolderReady(s, t, c);
      steps := ReconnectRun(s, t, c);
      DoNothing(conn, false, true);
      ghost var s1 := if s.conns[c].phase.Init? then SetConn(s, c, s.conns[c].(phase := Connected)) else s;
      s' := Unlock(s1, t, c, Done);
      forall d | 0 <= d < |conns| ensures ConnMatches(s', d) { assert old(ConnMatches(s, d)); }
      forall k | 0 <= k < |chans| ensures ChanMatches(s', k) { assert old(ChanMatches(s, k)); }
    }

    /** On a connection that is closed neither of them does anything but unlock. */
    method TooLate(conn: Connection, calling: bool, dialed: bool, ghost s: State, ghost t: nat, ghost c: nat)
      returns (ghost s': State)
      requires Matches(s) && c < |conns| && conns[c] == conn && t < |s.threads|
      requires s.threads[t] == Locked(c, if calling then CallJob else ReconnectJob)
      requires conn.Valid() && rpc.Valid() && conn.state.Closed?
      modifies conn, conn.pending.Values, rpc
      ensures Apply(s, Run(t, Ok)) == Some(s') && Matches(s') && conn.Valid() && rpc.Valid()
      ensures s'.threads == s.threads[t := Done] && s'.chans == s.chans
    {
      assert ConnMatches(s, c);
      HolderReady(s, t, c);
      DoNothing(conn, calling, dialed);
      s' := Unlock(s, t, c, Done);
      forall d | 0 <= d < |conns| ensures ConnMatches(s', d) { assert old(ConnMatches(s, d)); }
      forall k | 0 <= k < |chans| ensures ChanMatches(s', k) { assert old(ChanMatches(s, k)); }
    }

    /** The critical section of HandleResponse is one step of the reader. */
    method TakePending(conn: Connection, id: nat, ghost s: State, ghost t: nat, ghost c: nat)
      returns (chan: ReplyChan?, ghost s': State)
      requires Matches(s) && c < |conns| && conns[c] == conn && t < |s.threads| && conn.Valid()
      requires s.threads[t] == Locked(c, ResponseJob(id))
      modifies conn
      ensures Apply(s, Run(t, Ok)) == Some(s') && Matches(s') && conn.Valid()
      ensures if id in s.conns[c].pending then
                && s.conns[c].pending[id] < |chans| && chan == chans[s.conns[c].pending[id]]
                && s'.threads == s.threads[t := Deliver(s.conns[c].pending[id])]
              else chan == null && s'.threads == s.threads[t := Done]
    {
      assert ConnMatches(s, c);
      HolderReady(s, t, c);
      chan := conn.TakePending(id);
      s' := RpcProtocol.TakePending(s, t, c, id);
      forall d | 0 <= d < |conns| ensures ConnMatches(s', d) { assert old(ConnMatches(s, d)); }
      forall k | 0 <= k < |chans| ensures ChanMatches(s', k) { assert old(ChanMatches(s, k)); }
    }

    /** The send that ends HandleResponse is one step, possible while the slot is free. */
    method SendReply(chan: ReplyChan, ghost s: State, ghost t: nat, ghost k: nat) returns (ghost s': State)
      requires Matches(s) && k < |chans| && chans[k] == chan && t < |s.threads| && s.threads[t] == Deliver(k)
      requires chan.slot.None?
      modifies chan
      ensures Apply(s, Run(t, Ok)) == Some(s') && Matches(s') && chan.slot == Some(Response)
    {
      assert ChanMatches(s, k);
      chan.Send(Response);
      s' := Goto(RpcProtocol.Send(s, k, Response), t, Done);
      forall d | 0 <= d < |conns| ensures ConnMatches(s', d) { assert old(ConnMatches(s, d)); }
      forall i | 0 <= i < |chans| ensures ChanMatches(s', i) { assert old(ChanMatches(s, i)); }
    }

    /** The receive that ends Call is one step, possible once the slot is taken. */
    method ReceiveReply(chan: ReplyChan, ghost s: State, ghost t: nat, ghost k: nat) returns (r: Reply, ghost s': State)
      requires Matches(s) && k < |chans| && chans[k] == chan && t < |s.threads| && s.threads[t] == Waiting(k)
      requires chan.slot.Some?
      modifies chan
      ensures Apply(s, Run(t, Ok)) == Some(s') && Matches(s') && s.chans[k].buf == [r] && chan.slot.None?
    {
      assert ChanMatches(s, k);
      r := chan.Receive();
      s' := Goto(RpcProtocol.Receive(s, k), t, Done);
      forall d | 0 <= d < |conns| ensures ConnMatches(s', d) { assert old(ConnMatches(s, d)); }
      forall i | 0 <= i < |chans| ensures ChanMatches(s', i) { assert old(ChanMatches(s, i)); }
    }

    /** GetConnection on the objects, and what it leaves alone. */
    method DoGet(address: string) returns (conn: Connection)
      requires rpc.Valid() && IsWebsocket(address)
      modifies rpc
      ensures rpc.Valid() && rpc.connMap == old(rpc.connMap)[address := conn] && conn.address == address
      ensures address in old(rpc.connMap) ==> conn == old(rpc.connMap)[address]
      ensures address !in old(rpc.connMap) ==>
                fresh(conn) && conn.state.Init? && conn.pending == map[] && conn.nextRequestId == 0
      ensures forall d :: 0 <= d < |conns| ==>
                && conns[d].pending == old(conns[d].pending) && conns[d].nextRequestId == old(conns[d].nextRequestId)
                && conns[d].state == old(conns[d].state)
      ensures forall k :: 0 <= k < |chans| ==> chans[k].slot == old(chans[k].slot)
    {
      conn := rpc.GetConnection(address);
      assert address in old(rpc.connMap) ==> old(rpc.connMap)[address := conn] == old(rpc.connMap);
    }

    /** GetConnection, for the websocket addresses the transition system is about, is one step. */
    method GetConnection(address: string, ghost s: State, ghost t: nat, ghost j: Job)
      returns (conn: Connection, ghost s': State)
      requires Matches(s) && rpc.Valid() && t < |s.threads| && IsWebsocket(address)
      requires s.threads[t] == InGetConn(address, j)
      modifies this, rpc
      ensures Apply(s, Run(t, Ok)) == Some(s') && Matches(s') && rpc.Valid() && chans == old(chans)
      ensures s'.threads[t].NeedLock? && s'.threads[t].job == j
      ensures s'.threads[t].conn < |conns| && conn == conns[s'.threads[t].conn] && conn.address == address
    {
      s' := RpcProtocol.GetConnection(s, t, address, j);
      GotConnection(s, t, address, j);
      if address in rpc.connMap {
        conn := GetMapped(address, s, s');
      } else {
        conn := GetNew(address, s, s');
      }
    }

    method GetMapped(address: string, ghost s: State, ghost s': State) returns (conn: Connection)
      requires Matches(s) && rpc.Valid() && IsWebsocket(address) && address in rpc.connMap
      requires s'.chans == s.chans && s'.cmap == s.cmap && s'.conns == s.conns
      modifies rpc
      ensures Matches(s') && rpc.Valid() && conn.address == address
      ensures address in s.cmap && s.cmap[address] < |conns| && conn == conns[s.cmap[address]]
    {
      conn := DoGet(address);
      assert rpc.connMap == old(rpc.connMap);
      forall d | 0 <= d < |conns| ensures ConnMatches(s', d) { assert old(ConnMatches(s, d)); }
      forall k | 0 <= k < |chans| ensures ChanMatches(s', k) { assert old(ChanMatches(s, k)); }
    }

    method GetNew(address: string, ghost s: State, ghost s': State) returns (conn: Connection)
      requires Matches(s) && rpc.Valid() && IsWebsocket(address) && address !in rpc.connMap
      requires s'.chans == s.chans && s'.cmap == s.cmap[address := |s.conns|]
      requires s'.conns == s.conns + [Conn(address, Init, map[], 0, None, 0, 0)]
      modifies `conns, rpc
      ensures Matches(s') && rpc.Valid() && conn.address == address && conns == old(conns) + [conn]
    {
      conn := DoGet(address);
      AgreeMore(old(rpc.connMap), s.cmap, conns, conn, address);
      conns := conns + [conn];
      forall d | 0 <= d < |conns| ensures ConnMatches(s', d) {
        if d < |s.conns| { assert old(ConnMatches(s, d)) && conns[d] == old(conns)[d] && s'.conns[d] == s.conns[d]; }
      }
      forall k | 0 <= k < |chans| ensures ChanMatches(s', k) { assert old(ChanMatches(s, k)); }
    }

    /** RemoveConnection is one step. */
    method RemoveConnection(conn: Connection, ghost s: State, ghost t: nat, ghost c: nat) returns (ghost s': State)
      requires Matches(s) && rpc.Valid() && c < |conns| && conns[c] == conn && t < |s.threads|
      requires s.threads[t] == InRemove(c)
      modifies rpc
      ensures Apply(s, Run(t, Ok)) == Some(s') && Matches(s') && rpc.Valid()
      ensures rpc.reconnecting == old(rpc.reconnecting) + (if |s'.threads| > |s.threads| then [conn.address] else [])
      ensures s'.threads == s.threads[t := Leaving(c)] +
                (if rpc.reconnecting == old(rpc.reconnecting) then [] else [NeedConn(conn.address, ReconnectJob)])
    {
      assert ConnMatches(s, c);
      HolderReady(s, t, c);
      rpc.RemoveConnection(conn);
      s' := RpcProtocol.RemoveConnection(s, t, c);
      forall d | 0 <= d < |conns| ensures ConnMatches(s', d) { assert old(ConnMatches(s, d)); }
      forall k | 0 <= k < |chans| ensures ChanMatches(s', k) { assert old(ChanMatches(s, k)); }
    }

    /** The channel objects pending on a connection are those of its pending requests. */
    lemma PendingChans(s: State, c: nat, k: nat)
      requires |conns| == |s.conns| && |chans| == |s.chans| && Separate() && c < |conns| && k < |chans|
      requires ConnMatches(s, c) && OwnsPending(s, c)
      ensures chans[k] in conns[c].pending.Values <==> Owed(s, c, s.conns[c].pending.Keys, k)
    {
      if Owed(s, c, s.conns[c].pending.Keys, k) {
        assert conns[c].pending[s.chans[k].req] == chans[k];
      }
      if chans[k] in conns[c].pending.Values {
        var id :| id in conns[c].pending && conns[c].pending[id] == chans[k];
        assert s.conns[c].pending[id] == k;
      }
    }

    /** One connection after the close of `c`, which left its requests alone. */
    lemma ConnAfterClose(s: State, s': State, c: nat, d: nat)
      requires c < |conns| == |s.conns| && d < |conns| && Closes(s, s', c)
      requires conns[d].address == s.conns[d].addr && conns[d].nextRequestId == s.conns[d].nextId
      requires Agree(conns[d].pending, s.conns[d].pending, chans)
      requires conns[d].state == if d == c then Closed else s.conns[d].phase
      ensures ConnMatches(s', d)
    {
    }

    /** The map after the close of `c`, which was `was` before. */
    lemma MapAfterClose(s: State, s': State, c: nat, was: map<string, Connection>, started: seq<string>)
      requires c < |conns| == |s.conns| && Closes(s, s', c) && Agree(was, s.cmap, conns)
      requires conns[c].address == s.conns[c].addr && rpc.Removed(conns[c], was, started)
      ensures MapMatches(s')
    {
    }

    /** All ways of closing an open connection come to the same. */
    method Shut(conn: Connection, way: Way)
      requires conn.Valid() && rpc.Valid() && !conn.state.Closed? && (!way.OnRequest? ==> conn.state.Init?)
      modifies conn, conn.pending.Values, rpc
      ensures conn.Valid() && rpc.Valid() && conn.state.Closed?
      ensures forall chan :: chan in conn.pending.Values ==> chan.slot == Some(ConnectionClosed)
      ensures rpc.Removed(conn, old(rpc.connMap), old(rpc.reconnecting))
      ensures forall d :: 0 <= d < |conns| ==>
                && conns[d].pending == old(conns[d].pending) && conns[d].nextRequestId == old(conns[d].nextRequestId)
                && (conns[d] != conn ==> conns[d].state == old(conns[d].state))
    {
      match way {
        case OnRequest => conn.CloseUnderLock(rpc);
        case OnCall => var _ := conn.BeginCall(rpc, false);
        case OnReconnect => var _ := conn.Reconnect(rpc, false);
      }
      forall chan | chan in conn.pending.Values ensures chan.slot == Some(ConnectionClosed) {
        var id :| id in conn.pending && conn.pending[id] == chan;
      }
    }

    /**
     The objects after CloseUnderLock, or after a Call or Reconnect whose dial fails, are in any state
     that a close leads to.
     */
    method CloseTo(conn: Connection, way: Way, ghost s: State, ghost s': State, ghost c: nat)
      requires !way.OnRequest? ==> conn.state.Init?
      requires Matches(s) && c < |conns| && conns[c] == conn && conn.Valid() && rpc.Valid() && !conn.state.Closed?
      requires Closes(s, s', c) && OwnsPending(s, c)
      modifies conn, conn.pending.Values, rpc
      ensures Matches(s') && conn.Valid() && rpc.Valid()
    {
      assert ConnMatches(s, c);
      ghost var waiters := conn.pending.Values;
      ghost var keys := s.conns[c].pending.Keys;
      forall k | 0 <= k < |chans| ensures chans[k] in waiters <==> Owed(s, c, keys, k) { PendingChans(s, c, k); }
      Shut(conn, way);
      MapAfterClose(s, s', c, old(rpc.connMap), old(rpc.reconnecting));
      forall d | 0 <= d < |conns| ensures ConnMatches(s', d) {
        assert old(ConnMatches(s, d));
        ConnAfterClose(s, s', c, d);
      }
      forall k | 0 <= k < |chans| ensures ChanMatches(s', k) {
        assert old(ChanMatches(s, k));
        ChanAfterClose(s, s', c, k, waiters, old(chans[k].slot));
      }
    }

    /** One channel after the close, which held `was` before. */
    lemma ChanAfterClose(s: State, s': State, c: nat, k: nat, waiters: set<ReplyChan>, was: Option<Reply>)
      requires c < |s.conns| && k < |chans| == |s.chans| && Woken(s, s', c, s.conns[c].pending.Keys)
      requires s.chans[k].buf == if was.None? then [] else [was.value]
      requires chans[k] in waiters <==> Owed(s, c, s.conns[c].pending.Keys, k)
      requires chans[k].slot == if chans[k] in waiters then Some(ConnectionClosed) else was
      ensures ChanMatches(s', k)
    {
    }

    /**
     Closing a connection, on request or after a failed dial, is a run of steps of its closer, from
     any state the transition system can be in while the map lock is free.
     */
    method Close(conn: Connection, way: Way, ghost s: State, ghost t: nat, ghost c: nat)
      returns (ghost steps: seq<Step>, ghost s': State)
      requires Matches(s) && c < |conns| && conns[c] == conn && conn.Valid() && rpc.Valid()
      requires Inv(s) && AboutToClose(s, t, c) && s.mapLock.None? && (!way.OnRequest? ==> conn.state.Init?)
      modifies conn, conn.pending.Values, rpc
      ensures RunAll(s, steps) == Some(s') && t < |s'.threads| && s'.threads[t] == Leaving(c)
      ensures Matches(s') && conn.Valid() && rpc.Valid()
    {
      assert ConnMatches(s, c);
      InvOwnsPending(s, c);
      steps, s' := CloseRun(s, t, c);
      CloseTo(conn, way, s, s', c);
    }
  }
}
