/**
 Inductive invariants of the shared connection, and what they give for every run.
 */
module RpcSafety {
  import opened Wrappers
  import opened RpcProtocol

  predicate HoldsMap(pc: Pc) {
    pc.InGetConn? || pc.InRemove?
  }

  // ---------------------------------------------------------------- one goroutine

  /** Lock words agree with the goroutine's position. */
  predicate ThreadLocks(s: State, t: nat)
    requires t < |s.threads|
  {
    var pc := s.threads[t];
    && PcInRange(s, pc)
    && (HeldConn(pc).Some? ==> s.conns[HeldConn(pc).value].lock == Some(t))
    && (HoldsMap(pc) ==> s.mapLock == Some(t))
  }

  /** What the position says about the connection or request the goroutine works on. */
  predicate ThreadWork(s: State, t: nat)
    requires t < |s.threads| && PcInRange(s, s.threads[t])
  {
    match s.threads[t]
    case Closing(c, todo) =>
      && s.conns[c].phase.Closed?
      && forall id :: id in todo ==>
           && id in s.conns[c].pending && s.conns[c].pending[id] < |s.chans|
           && s.chans[s.conns[c].pending[id]].buf == [] && s.chans[s.conns[c].pending[id]].sent == 0
    case NeedMap(c) => s.conns[c].phase.Closed?
    case InRemove(c) => s.conns[c].phase.Closed?
    case Sending(k) => s.chans[k].caller == t && s.chans[k].received == 0
    case Waiting(k) => s.chans[k].caller == t && s.chans[k].received == 0
    case Deliver(k) => s.chans[k].taker == Some(t)
    case _ => true
  }

  predicate ThreadOk(s: State, t: nat)
    requires t < |s.threads|
  {
    ThreadLocks(s, t) && ThreadWork(s, t)
  }

  // ---------------------------------------------------------------- one connection

  /** A locked connection is held by the goroutine its lock names. */
  predicate ConnLock(s: State, c: nat)
    requires c < |s.conns|
  {
    var lock := s.conns[c].lock;
    lock.Some? ==> lock.value < |s.threads| && HeldConn(s.threads[lock.value]) == Some(c)
  }

  /** What the pending map says about reply channels. */
  predicate ConnPending(s: State, c: nat)
    requires c < |s.conns|
  {
    var conn := s.conns[c];
    && PendingInRange(s, conn)
    && (conn.phase.Init? ==> conn.pending == map[])
    && forall id :: id in conn.pending ==>
         var ch := s.chans[conn.pending[id]];
         && id < conn.nextId && ch.conn == c && ch.req == id && ch.taker.None?
         && (!conn.phase.Closed? ==> ch.sent == 0 && ch.buf == [])
  }

  /** Whether a goroutine at `pc` is between marking `c` closed and returning from RemoveConnection. */
  predicate MidClose(pc: Pc, c: nat) {
    match pc
    case Closing(d, _) => d == c
    case NeedMap(d) => d == c
    case InRemove(d) => d == c
    case _ => false
  }

  predicate ClosedByHolder(s: State, c: nat)
    requires c < |s.conns|
  {
    var lock := s.conns[c].lock;
    lock.Some? && lock.value < |s.threads| && MidClose(s.threads[lock.value], c)
  }

  /**
   A connection is mapped until its own close removes it, once; it is closed and still mapped
   exactly while its closer holds its lock; each removal started one reconnect.
   */
  predicate ConnMapped(s: State, c: nat)
    requires c < |s.conns|
  {
    var conn := s.conns[c];
    && conn.removals <= 1 && conn.reconnects == conn.removals
    && (conn.removals == 0 <==> conn.addr in s.cmap && s.cmap[conn.addr] == c)
    && (conn.phase.Closed? && conn.removals == 0 <==> ClosedByHolder(s, c))
    && (conn.removals == 1 ==> conn.phase.Closed?)
  }

  predicate ConnOk(s: State, c: nat)
    requires c < |s.conns|
  {
    ConnLock(s, c) && ConnPending(s, c) && ConnMapped(s, c)
  }

  // ---------------------------------------------------------------- one reply channel

  /** Accounting of one reply channel. */
  predicate ChanCount(s: State, k: nat)
    requires k < |s.chans|
  {
    var ch := s.chans[k];
    && ch.conn < |s.conns| && ch.caller < |s.threads|
    && |ch.buf| <= 1 && ch.sent == ch.received + |ch.buf|
    && (s.threads[ch.caller] == Sending(k) || s.threads[ch.caller] == Waiting(k) ||
        (s.threads[ch.caller] == Done && (ch.received > 0 || ch.abandoned)))
    && (ch.abandoned ==> s.threads[ch.caller] == Done)
    && (ConnectionClosed in ch.buf ==> s.conns[ch.conn].phase.Closed?)
    && (ch.taker.None? ==> Response !in ch.buf && ch.sent <= 1)
    && (ch.taker.Some? ==>
          && ch.taker.value < |s.threads|
          && (s.threads[ch.taker.value] == Done ||
              (s.threads[ch.taker.value] == Deliver(k) && Response !in ch.buf && ch.sent <= 1)))
  }

  /** The closer of `c` still owes request `id` its wake-up. */
  predicate OwedByCloser(s: State, c: nat, id: nat)
    requires c < |s.conns|
  {
    var lock := s.conns[c].lock;
    lock.Some? && lock.value < |s.threads| &&
    var pc := s.threads[lock.value];
    pc.Closing? && pc.conn == c && id in pc.todo
  }

  /**
   A registered request is never forgotten: a reply was put on its channel, or a HandleResponse
   took it and is about to send, or it is pending on an open connection, or it is pending on a
   closed one whose closer still holds the lock and has it on its list.
   */
  predicate Accounted(s: State, k: nat)
    requires k < |s.chans| && s.chans[k].conn < |s.conns|
  {
    var ch := s.chans[k];
    var conn := s.conns[ch.conn];
    || ch.sent > 0
    || (ch.taker.Some? && ch.taker.value < |s.threads| && s.threads[ch.taker.value] == Deliver(k))
    || (&& ch.req in conn.pending && conn.pending[ch.req] == k
        && (conn.phase.Closed? ==> OwedByCloser(s, ch.conn, ch.req)))
  }

  predicate ChanOk(s: State, k: nat)
    requires k < |s.chans|
  {
    ChanCount(s, k) && Accounted(s, k)
  }

  // ---------------------------------------------------------------- the invariant

  predicate MapLockOk(s: State) {
    s.mapLock.Some? ==> s.mapLock.value < |s.threads| && HoldsMap(s.threads[s.mapLock.value])
  }

  predicate AddrOk(s: State, a: Addr)
    requires a in s.cmap
  {
    s.cmap[a] < |s.conns| && s.conns[s.cmap[a]].addr == a
  }

  ghost predicate Inv(s: State) {
    && (forall t :: 0 <= t < |s.threads| ==> ThreadOk(s, t))
    && (forall c :: 0 <= c < |s.conns| ==> ConnOk(s, c))
    && (forall k :: 0 <= k < |s.chans| ==> ChanOk(s, k))
    && (forall a :: a in s.cmap ==> AddrOk(s, a))
    && MapLockOk(s)
  }

  // ---------------------------------------------------------------- every step keeps it

  lemma LockMapKeeps(s: State, t: nat, pc: Pc)
    requires Inv(s) && t < |s.threads| && s.mapLock.None?
    requires match s.threads[t]
             case NeedConn(a, j) => pc == InGetConn(a, j)
             case NeedMap(c) => pc == InRemove(c)
             case _ => false
    ensures Inv(Goto(s.(mapLock := Some(t)), t, pc))
  {
    var s' := Goto(s.(mapLock := Some(t)), t, pc);
    assert ThreadOk(s, t);
    forall u | 0 <= u < |s'.threads| ensures ThreadOk(s', u) { assert ThreadOk(s, u); }
    forall d | 0 <= d < |s'.conns| ensures ConnOk(s', d) { assert ConnOk(s, d); }
    forall k | 0 <= k < |s'.chans| ensures ChanOk(s', k) { assert ChanOk(s, k); }
    forall a | a in s'.cmap ensures AddrOk(s', a) { assert AddrOk(s, a); }
  }

  lemma LockConnKeeps(s: State, t: nat, c: nat, j: Job)
    requires Inv(s) && t < |s.threads| && s.threads[t] == NeedLock(c, j) && c < |s.conns| && s.conns[c].lock.None?
    ensures Inv(Goto(SetConn(s, c, s.conns[c].(lock := Some(t))), t, Locked(c, j)))
  {
    var s' := Goto(SetConn(s, c, s.conns[c].(lock := Some(t))), t, Locked(c, j));
    assert ThreadOk(s, t);
    assert ConnOk(s, c);
    forall u | 0 <= u < |s'.threads| ensures ThreadOk(s', u) { assert ThreadOk(s, u); }
    forall d | 0 <= d < |s'.conns| ensures ConnOk(s', d) { assert ConnOk(s, d); }
    forall k | 0 <= k < |s'.chans| ensures ChanOk(s', k) { assert ChanOk(s, k); }
    forall a | a in s'.cmap ensures AddrOk(s', a) { assert AddrOk(s, a); }
  }

  predicate Getting(s: State, t: nat, a: Addr, j: Job) {
    && t < |s.threads| && s.threads[t] == InGetConn(a, j) && ThreadOk(s, t)
    && (a in s.cmap ==> AddrOk(s, a))
  }

  lemma GetConnectionThread(s: State, t: nat, a: Addr, j: Job, u: nat)
    requires Getting(s, t, a, j) && u < |s.threads| && ThreadOk(s, u)
    ensures ThreadOk(GetConnection(s, t, a, j), u)
  {
  }

  lemma GetConnectionConn(s: State, t: nat, a: Addr, j: Job, d: nat)
    requires Getting(s, t, a, j) && d < |s.conns| && ConnOk(s, d)
    ensures ConnOk(GetConnection(s, t, a, j), d)
  {
  }

  lemma GetConnectionChan(s: State, t: nat, a: Addr, j: Job, k: nat)
    requires Getting(s, t, a, j) && k < |s.chans| && ChanOk(s, k)
    ensures ChanOk(GetConnection(s, t, a, j), k)
  {
  }

  lemma GetConnectionKeeps(s: State, t: nat, a: Addr, j: Job)
    requires Inv(s) && Getting(s, t, a, j)
    ensures Inv(GetConnection(s, t, a, j))
  {
    var s' := GetConnection(s, t, a, j);
    forall u | 0 <= u < |s'.threads| ensures ThreadOk(s', u) { GetConnectionThread(s, t, a, j, u); }
    forall d | 0 <= d < |s'.conns| ensures ConnOk(s', d) { if d < |s.conns| { GetConnectionConn(s, t, a, j, d); } }
    forall k | 0 <= k < |s'.chans| ensures ChanOk(s', k) { GetConnectionChan(s, t, a, j, k); }
    forall a | a in s'.cmap ensures AddrOk(s', a) { if a in s.cmap { assert AddrOk(s, a); } }
  }

  /** A Call that holds the lock of a connected connection. */
  predicate Registering(s: State, t: nat, c: nat) {
    && t < |s.threads| && c < |s.conns| && s.threads[t] == Locked(c, CallJob) && s.conns[c].phase.Connected?
    && ThreadOk(s, t) && ConnOk(s, c)
  }

  lemma RegisterThread(s: State, t: nat, c: nat, u: nat)
    requires Registering(s, t, c) && u < |s.threads| && ThreadOk(s, u)
    ensures ThreadOk(Register(s, t, c), u)
  {
  }

  lemma RegisterConn(s: State, t: nat, c: nat, d: nat)
    requires Registering(s, t, c) && d < |s.conns| && ConnOk(s, d)
    ensures ConnOk(Register(s, t, c), d)
  {
  }

  lemma RegisterChan(s: State, t: nat, c: nat, k: nat)
    requires Registering(s, t, c) && k < |s.chans| && ChanOk(s, k)
    ensures ChanOk(Register(s, t, c), k)
  {
  }

  lemma RegisterKeeps(s: State, t: nat, c: nat)
    requires Inv(s) && Registering(s, t, c)
    ensures Inv(Register(s, t, c))
  {
    var s' := Register(s, t, c);
    forall u | 0 <= u < |s'.threads| ensures ThreadOk(s', u) { RegisterThread(s, t, c, u); }
    forall d | 0 <= d < |s'.conns| ensures ConnOk(s', d) { RegisterConn(s, t, c, d); }
    forall k | 0 <= k < |s'.chans| ensures ChanOk(s', k) { if k < |s.chans| { RegisterChan(s, t, c, k); } }
    forall a | a in s'.cmap ensures AddrOk(s', a) { assert AddrOk(s, a); }
  }

  /** A HandleResponse that finds request `id` pending on the connection it has locked. */
  predicate Taking(s: State, t: nat, c: nat, id: nat) {
    && t < |s.threads| && c < |s.conns| && s.threads[t] == Locked(c, ResponseJob(id))
    && ThreadOk(s, t) && ConnOk(s, c)
    && id in s.conns[c].pending && ChanOk(s, s.conns[c].pending[id])
  }

  lemma TakePendingThread(s: State, t: nat, c: nat, id: nat, u: nat)
    requires Taking(s, t, c, id) && u < |s.threads| && ThreadOk(s, u)
    requires s.threads[u].Closing? ==> ConnOk(s, s.threads[u].conn)
    ensures ThreadOk(TakePending(s, t, c, id), u)
  {
  }

  lemma TakePendingConn(s: State, t: nat, c: nat, id: nat, d: nat)
    requires Taking(s, t, c, id) && d < |s.conns| && ConnOk(s, d)
    ensures ConnOk(TakePending(s, t, c, id), d)
  {
  }

  lemma TakePendingChan(s: State, t: nat, c: nat, id: nat, k: nat)
    requires Taking(s, t, c, id) && k < |s.chans| && ChanOk(s, k)
    ensures ChanOk(TakePending(s, t, c, id), k)
  {
  }

  lemma TakePendingKeeps(s: State, t: nat, c: nat, id: nat)
    requires Inv(s) && Taking(s, t, c, id)
    ensures Inv(TakePending(s, t, c, id))
  {
    var s' := TakePending(s, t, c, id);
    forall u | 0 <= u < |s'.threads| ensures ThreadOk(s', u) { TakePendingThread(s, t, c, id, u); }
    forall d | 0 <= d < |s'.conns| ensures ConnOk(s', d) { TakePendingConn(s, t, c, id, d); }
    forall k | 0 <= k < |s'.chans| ensures ChanOk(s', k) { TakePendingChan(s, t, c, id, k); }
    forall a | a in s'.cmap ensures AddrOk(s', a) { assert AddrOk(s, a); }
  }

  lemma BeginCloseKeeps(s: State, t: nat, c: nat, j: Job)
    requires Inv(s) && t < |s.threads| && s.threads[t] == Locked(c, j) && c < |s.conns| && !s.conns[c].phase.Closed?
    ensures Inv(BeginClose(s, t, c))
  {
    var s' := BeginClose(s, t, c);
    assert ThreadOk(s, t);
    assert ConnOk(s, c);
    forall u | 0 <= u < |s'.threads| ensures ThreadOk(s', u) { assert ThreadOk(s, u); }
    forall d | 0 <= d < |s'.conns| ensures ConnOk(s', d) { assert ConnOk(s, d); }
    forall k | 0 <= k < |s'.chans| ensures ChanOk(s', k) { assert ChanOk(s, k); }
    forall a | a in s'.cmap ensures AddrOk(s', a) { assert AddrOk(s, a); }
  }

  lemma DialKeeps(s: State, t: nat, c: nat, j: Job)
    requires Inv(s) && t < |s.threads| && s.threads[t] == Locked(c, j) && c < |s.conns| && s.conns[c].phase.Init?
    ensures Inv(SetConn(s, c, s.conns[c].(phase := Connected)))
  {
    var s' := SetConn(s, c, s.conns[c].(phase := Connected));
    assert ThreadOk(s, t);
    assert ConnOk(s, c);
    forall u | 0 <= u < |s'.threads| ensures ThreadOk(s', u) { assert ThreadOk(s, u); }
    forall d | 0 <= d < |s'.conns| ensures ConnOk(s', d) { assert ConnOk(s, d); }
    forall k | 0 <= k < |s'.chans| ensures ChanOk(s', k) { assert ChanOk(s, k); }
    forall a | a in s'.cmap ensures AddrOk(s', a) { assert AddrOk(s, a); }
  }

  predicate Unlocking(s: State, t: nat, c: nat) {
    && t < |s.threads| && c < |s.conns|
    && (s.threads[t] == Leaving(c) || (s.threads[t].Locked? && s.threads[t].conn == c))
    && ThreadOk(s, t) && ConnOk(s, c)
  }

  lemma UnlockThread(s: State, t: nat, c: nat, u: nat)
    requires Unlocking(s, t, c) && u < |s.threads| && ThreadOk(s, u)
    ensures ThreadOk(Unlock(s, t, c, Done), u)
  {
  }

  lemma UnlockConn(s: State, t: nat, c: nat, d: nat)
    requires Unlocking(s, t, c) && d < |s.conns| && ConnOk(s, d)
    ensures ConnOk(Unlock(s, t, c, Done), d)
  {
  }

  lemma UnlockChan(s: State, t: nat, c: nat, k: nat)
    requires Unlocking(s, t, c) && k < |s.chans| && ChanOk(s, k)
    ensures ChanOk(Unlock(s, t, c, Done), k)
  {
  }

  lemma UnlockKeeps(s: State, t: nat, c: nat)
    requires Inv(s) && Unlocking(s, t, c)
    ensures Inv(Unlock(s, t, c, Done))
  {
    var s' := Unlock(s, t, c, Done);
    forall u | 0 <= u < |s'.threads| ensures ThreadOk(s', u) { UnlockThread(s, t, c, u); }
    forall d | 0 <= d < |s'.conns| ensures ConnOk(s', d) { UnlockConn(s, t, c, d); }
    forall k | 0 <= k < |s'.chans| ensures ChanOk(s', k) { UnlockChan(s, t, c, k); }
    forall a | a in s'.cmap ensures AddrOk(s', a) { assert AddrOk(s, a); }
  }

  /** A closer about to wake request `id`. */
  predicate Waking(s: State, t: nat, c: nat, todo: set<nat>, id: nat) {
    && t < |s.threads| && c < |s.conns| && s.threads[t] == Closing(c, todo) && id in todo
    && ThreadOk(s, t) && ConnOk(s, c)
    && id in s.conns[c].pending && s.conns[c].pending[id] < |s.chans| && ChanOk(s, s.conns[c].pending[id])
  }

  function Wake(s: State, t: nat, c: nat, todo: set<nat>, id: nat): State
    requires Waking(s, t, c, todo, id)
  {
    Goto(Send(s, s.conns[c].pending[id], ConnectionClosed), t, Closing(c, todo - {id}))
  }

  lemma WakeThread(s: State, t: nat, c: nat, todo: set<nat>, id: nat, u: nat)
    requires Waking(s, t, c, todo, id) && u < |s.threads| && ThreadOk(s, u)
    requires s.threads[u].Closing? ==> ConnOk(s, s.threads[u].conn)
    ensures ThreadOk(Wake(s, t, c, todo, id), u)
  {
  }

  lemma WakeConn(s: State, t: nat, c: nat, todo: set<nat>, id: nat, d: nat)
    requires Waking(s, t, c, todo, id) && d < |s.conns| && ConnOk(s, d)
    ensures ConnOk(Wake(s, t, c, todo, id), d)
  {
  }

  lemma WakeChan(s: State, t: nat, c: nat, todo: set<nat>, id: nat, k: nat)
    requires Waking(s, t, c, todo, id) && k < |s.chans| && ChanOk(s, k)
    ensures ChanOk(Wake(s, t, c, todo, id), k)
  {
  }

  lemma WakeKeeps(s: State, t: nat, c: nat, todo: set<nat>, id: nat)
    requires Inv(s) && Waking(s, t, c, todo, id)
    ensures Inv(Wake(s, t, c, todo, id))
  {
    var s' := Wake(s, t, c, todo, id);
    forall u | 0 <= u < |s'.threads| ensures ThreadOk(s', u) {
      assert ThreadOk(s, u);
      WakeThread(s, t, c, todo, id, u);
    }
    forall d | 0 <= d < |s'.conns| ensures ConnOk(s', d) { WakeConn(s, t, c, todo, id, d); }
    forall k | 0 <= k < |s'.chans| ensures ChanOk(s', k) { WakeChan(s, t, c, todo, id, k); }
    forall a | a in s'.cmap ensures AddrOk(s', a) { assert AddrOk(s, a); }
  }

  predicate Removing(s: State, t: nat, c: nat) {
    && t < |s.threads| && c < |s.conns| && s.threads[t] == InRemove(c)
    && ThreadOk(s, t) && ConnOk(s, c)
  }

  lemma RemoveThread(s: State, t: nat, c: nat, u: nat)
    requires Removing(s, t, c) && u < |s.threads| && ThreadOk(s, u)
    ensures ThreadOk(RemoveConnection(s, t, c), u)
  {
  }

  lemma RemoveConn(s: State, t: nat, c: nat, d: nat)
    requires Removing(s, t, c) && d < |s.conns| && ConnOk(s, d)
    ensures ConnOk(RemoveConnection(s, t, c), d)
  {
  }

  lemma RemoveChan(s: State, t: nat, c: nat, k: nat)
    requires Removing(s, t, c) && k < |s.chans| && ChanOk(s, k)
    ensures ChanOk(RemoveConnection(s, t, c), k)
  {
  }

  lemma RemoveKeeps(s: State, t: nat, c: nat)
    requires Inv(s) && Removing(s, t, c)
    ensures Inv(RemoveConnection(s, t, c))
  {
    var s' := RemoveConnection(s, t, c);
    forall u | 0 <= u < |s'.threads| ensures ThreadOk(s', u) { if u < |s.threads| { RemoveThread(s, t, c, u); } }
    forall d | 0 <= d < |s'.conns| ensures ConnOk(s', d) { RemoveConn(s, t, c, d); }
    forall k | 0 <= k < |s'.chans| ensures ChanOk(s', k) { RemoveChan(s, t, c, k); }
    forall a | a in s'.cmap ensures AddrOk(s', a) { assert AddrOk(s, a); }
  }

  lemma SendMessageKeeps(s: State, t: nat, k: nat)
    requires Inv(s) && t < |s.threads| && s.threads[t] == Sending(k)
    ensures Inv(Goto(s, t, Waiting(k)))
  {
    var s' := Goto(s, t, Waiting(k));
    assert ThreadOk(s, t);
    forall u | 0 <= u < |s'.threads| ensures ThreadOk(s', u) { assert ThreadOk(s, u); }
    forall d | 0 <= d < |s'.conns| ensures ConnOk(s', d) { assert ConnOk(s, d); }
    forall k | 0 <= k < |s'.chans| ensures ChanOk(s', k) { assert ChanOk(s, k); }
    forall a | a in s'.cmap ensures AddrOk(s', a) { assert AddrOk(s, a); }
  }

  lemma AbandonKeeps(s: State, t: nat, k: nat)
    requires Inv(s) && t < |s.threads| && s.threads[t] == Sending(k) && k < |s.chans|
    ensures Inv(Goto(Abandon(s, k), t, Done))
  {
    var s' := Goto(Abandon(s, k), t, Done);
    assert ThreadOk(s, t);
    forall u | 0 <= u < |s'.threads| ensures ThreadOk(s', u) { assert ThreadOk(s, u); }
    forall d | 0 <= d < |s'.conns| ensures ConnOk(s', d) { assert ConnOk(s, d); }
    forall k | 0 <= k < |s'.chans| ensures ChanOk(s', k) { assert ChanOk(s, k); }
    forall a | a in s'.cmap ensures AddrOk(s', a) { assert AddrOk(s, a); }
  }

  lemma WokenAllKeeps(s: State, t: nat, c: nat)
    requires Inv(s) && t < |s.threads| && s.threads[t] == Closing(c, {})
    ensures Inv(Goto(s, t, NeedMap(c)))
  {
    var s' := Goto(s, t, NeedMap(c));
    assert ThreadOk(s, t);
    forall u | 0 <= u < |s'.threads| ensures ThreadOk(s', u) { assert ThreadOk(s, u); }
    forall d | 0 <= d < |s'.conns| ensures ConnOk(s', d) { assert ConnOk(s, d); }
    forall k | 0 <= k < |s'.chans| ensures ChanOk(s', k) { assert ChanOk(s, k); }
    forall a | a in s'.cmap ensures AddrOk(s', a) { assert AddrOk(s, a); }
  }

  lemma ReceiveKeeps(s: State, t: nat, k: nat)
    requires Inv(s) && t < |s.threads| && s.threads[t] == Waiting(k) && k < |s.chans| && s.chans[k].buf != []
    ensures Inv(Goto(Receive(s, k), t, Done))
  {
    var s' := Goto(Receive(s, k), t, Done);
    assert ThreadOk(s, t);
    assert ChanOk(s, k);
    forall u | 0 <= u < |s'.threads| ensures ThreadOk(s', u) { assert ThreadOk(s, u); }
    forall d | 0 <= d < |s'.conns| ensures ConnOk(s', d) { assert ConnOk(s, d); }
    forall k | 0 <= k < |s'.chans| ensures ChanOk(s', k) { assert ChanOk(s, k); }
    forall a | a in s'.cmap ensures AddrOk(s', a) { assert AddrOk(s, a); }
  }

  lemma DeliverKeeps(s: State, t: nat, k: nat)
    requires Inv(s) && t < |s.threads| && s.threads[t] == Deliver(k) && k < |s.chans| && s.chans[k].buf == []
    ensures Inv(Goto(Send(s, k, Response), t, Done))
  {
    var s' := Goto(Send(s, k, Response), t, Done);
    assert ThreadOk(s, t);
    assert ChanOk(s, k);
    forall u | 0 <= u < |s'.threads| ensures ThreadOk(s', u) {
      assert ThreadOk(s, u);
      if s.threads[u].Closing? { assert ConnOk(s, s.threads[u].conn); }
    }
    forall d | 0 <= d < |s'.conns| ensures ConnOk(s', d) { assert ConnOk(s, d); }
    forall k | 0 <= k < |s'.chans| ensures ChanOk(s', k) { assert ChanOk(s, k); }
    forall a | a in s'.cmap ensures AddrOk(s', a) { assert AddrOk(s, a); }
  }

  /** Under the invariant no goroutine ever follows a dangling index. */
  lemma InvReady(s: State, t: nat)
    requires Inv(s) && t < |s.threads|
    ensures Ready(s, t)
  {
    assert ThreadOk(s, t);
    if HeldConn(s.threads[t]).Some? { assert ConnOk(s, HeldConn(s.threads[t]).value); }
  }

  lemma UnderLockKeeps(s: State, t: nat, c: nat, j: Job, choice: Choice)
    requires Inv(s) && t < |s.threads| && s.threads[t] == Locked(c, j) && c < |s.conns|
    requires PendingInRange(s, s.conns[c]) && UnderLock(s, t, c, j, choice).Some?
    ensures Inv(UnderLock(s, t, c, j, choice).value)
  {
    var phase := s.conns[c].phase;
    assert ThreadOk(s, t) && ConnOk(s, c);
    if j.ResponseJob? && j.req in s.conns[c].pending {
      TakePendingKeeps(s, t, c, j.req);
    } else if j.ResponseJob? || phase.Closed? || (phase.Connected? && j.ReconnectJob?) {
      UnlockKeeps(s, t, c);
    } else if j.CloseJob? {
      BeginCloseKeeps(s, t, c, j);
    } else if phase.Connected? {
      RegisterKeeps(s, t, c);
    } else if choice.Ok? {
      DialKeeps(s, t, c, j);
    } else {
      BeginCloseKeeps(s, t, c, j);
    }
  }

  lemma ExecKeeps(s: State, t: nat, choice: Choice)
    requires Inv(s) && t < |s.threads| && Ready(s, t) && Exec(s, t, choice).Some?
    ensures Inv(Exec(s, t, choice).value)
  {
    assert ThreadOk(s, t);
    match s.threads[t]
    case NeedConn(a, j) => LockMapKeeps(s, t, InGetConn(a, j));
    case InGetConn(a, j) => GetConnectionKeeps(s, t, a, j);
    case NeedLock(c, j) => LockConnKeeps(s, t, c, j);
    case Locked(c, j) => UnderLockKeeps(s, t, c, j, choice);
    case Closing(c, todo) =>
      if todo == {} { WokenAllKeeps(s, t, c); } else { WakeKeeps(s, t, c, todo, choice.req); }
    case NeedMap(c) => LockMapKeeps(s, t, InRemove(c));
    case InRemove(c) => RemoveKeeps(s, t, c);
    case Leaving(c) => UnlockKeeps(s, t, c);
    case Sending(k) => if choice.Ok? { SendMessageKeeps(s, t, k); } else { AbandonKeeps(s, t, k); }
    case Waiting(k) => ReceiveKeeps(s, t, k);
    case Deliver(k) => DeliverKeeps(s, t, k);
  }

  lemma SpawnKeeps(s: State, pc: Pc)
    requires Inv(s) && PcInRange(s, pc) && (pc.NeedConn? || pc.NeedLock?)
    ensures Inv(s.(threads := s.threads + [pc]))
  {
    var s' := s.(threads := s.threads + [pc]);
    forall u | 0 <= u < |s'.threads| ensures ThreadOk(s', u) { if u < |s.threads| { assert ThreadOk(s, u); } }
    forall d | 0 <= d < |s'.conns| ensures ConnOk(s', d) { assert ConnOk(s, d); }
    forall k | 0 <= k < |s'.chans| ensures ChanOk(s', k) { assert ChanOk(s, k); }
    forall a | a in s'.cmap ensures AddrOk(s', a) { assert AddrOk(s, a); }
  }

  lemma StepKeepsInv(s: State, step: Step)
    requires Inv(s) && Apply(s, step).Some?
    ensures Inv(Apply(s, step).value)
  {
    match step
    case SpawnCall(a) => SpawnKeeps(s, NeedConn(a, CallJob));
    case SpawnClose(c) => SpawnKeeps(s, NeedLock(c, CloseJob));
    case SpawnResponse(c, id) => SpawnKeeps(s, NeedLock(c, ResponseJob(id)));
    case Run(t, choice) => ExecKeeps(s, t, choice);
  }

  lemma RunKeepsInv(s: State, steps: seq<Step>)
    requires Inv(s) && RunAll(s, steps).Some?
    ensures Inv(RunAll(s, steps).value)
    decreases steps
  {
    if steps != [] {
      StepKeepsInv(s, steps[0]);
      RunKeepsInv(Apply(s, steps[0]).value, steps[1..]);
    }
  }

  /** The invariant holds after every schedule. */
  lemma ReachableInv(s: State)
    requires Reachable(s)
    ensures Inv(s)
  {
    var steps: seq<Step> :| RunAll(INITIAL, steps) == Some(s);
    RunKeepsInv(INITIAL, steps);
  }
}
