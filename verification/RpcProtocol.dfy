/**
 The websocket connection shared by every caller of one address, as a transition system.

 A state holds all connections ever created, all reply channels, the address map with its lock,
 and one program counter per goroutine.  A step is one critical-section boundary, one channel
 operation or one network outcome, so a run is an arbitrary interleaving of callers, readers,
 closers and reconnectors.
 */
module RpcProtocol {
  import opened Wrappers

  type Addr = string

  /** What a reply channel carries: the server's answer, or the wake-up sent by a close. */
  datatype Reply = Response | ConnectionClosed

  datatype Phase = Init | Connected | Closed

  /**
   One connection.  `removals` and `reconnects` count calls of RemoveConnection for this connection
   and the reconnect goroutines those calls started.
   */
  datatype Conn = Conn(addr: Addr, phase: Phase, pending: map<nat, nat>, nextId: nat,
                       lock: Option<nat>, removals: nat, reconnects: nat)

  /**
   The one-slot reply channel of one registered request.  `sent` and `received` count the values
   that went through it, `taker` is the goroutine whose HandleResponse removed the request, and
   `abandoned` records that the caller's SendMessage failed, so that nobody will ever receive.
   */
  datatype Chan = Chan(conn: nat, req: nat, caller: nat, buf: seq<Reply>, sent: nat, received: nat,
                       taker: Option<nat>, abandoned: bool)

  /** What a goroutine does once it holds the connection lock. */
  datatype Job = CallJob | ReconnectJob | CloseJob | ResponseJob(req: nat)

  datatype Pc =
    | NeedConn(addr: Addr, job: Job)             // about to lock the address map in GetConnection
    | InGetConn(addr: Addr, job: Job)            // holds the map lock
    | NeedLock(conn: nat, job: Job)              // about to lock the connection
    | Locked(conn: nat, job: Job)                // holds the connection lock
    | Closing(conn: nat, todo: set<nat>)         // holds it, waking the pending waiters
    | NeedMap(conn: nat)                         // holds it, about to lock the map in RemoveConnection
    | InRemove(conn: nat)                        // holds both locks
    | Leaving(conn: nat)                         // holds the connection lock, about to unlock it
    | Sending(chan: nat)                         // Call, in SendMessage, no lock held
    | Waiting(chan: nat)                         // Call, receiving from the reply channel
    | Deliver(chan: nat)                         // HandleResponse, sending on the reply channel
    | Done

  datatype State = State(conns: seq<Conn>, chans: seq<Chan>, cmap: map<Addr, nat>,
                         mapLock: Option<nat>, threads: seq<Pc>)

  /** The outcome of a dial or of SendMessage, or the pending request a closer wakes next. */
  datatype Choice = Ok | Fail | Pick(req: nat)

  datatype Step =
    | SpawnCall(addr: Addr)
    | SpawnClose(conn: nat)
    | SpawnResponse(conn: nat, req: nat)
    | Run(thread: nat, choice: Choice)

  const INITIAL := State([], [], map[], None, [])

  // ---------------------------------------------------------------- well-formed references

  predicate PcInRange(s: State, pc: Pc) {
    match pc
    case NeedLock(c, _) => c < |s.conns|
    case Locked(c, _) => c < |s.conns|
    case Closing(c, _) => c < |s.conns|
    case NeedMap(c) => c < |s.conns|
    case InRemove(c) => c < |s.conns|
    case Leaving(c) => c < |s.conns|
    case Sending(k) => k < |s.chans|
    case Waiting(k) => k < |s.chans|
    case Deliver(k) => k < |s.chans|
    case _ => true
  }

  /** The connection whose lock a goroutine at `pc` holds. */
  function HeldConn(pc: Pc): Option<nat> {
    match pc
    case Locked(c, _) => Some(c)
    case Closing(c, _) => Some(c)
    case NeedMap(c) => Some(c)
    case InRemove(c) => Some(c)
    case Leaving(c) => Some(c)
    case _ => None
  }

  predicate PendingInRange(s: State, conn: Conn) {
    forall id :: id in conn.pending ==> conn.pending[id] < |s.chans|
  }

  /** Every index goroutine `t` follows in its next step points at something. */
  predicate Ready(s: State, t: nat)
    requires t < |s.threads|
  {
    && PcInRange(s, s.threads[t])
    && (HeldConn(s.threads[t]).Some? ==> PendingInRange(s, s.conns[HeldConn(s.threads[t]).value]))
  }

  // ---------------------------------------------------------------- steps

  /** Moves goroutine `t` to `pc`. */
  function Goto(s: State, t: nat, pc: Pc): State
    requires t < |s.threads|
  {
    s.(threads := s.threads[t := pc])
  }

  function SetConn(s: State, c: nat, conn: Conn): State
    requires c < |s.conns|
  {
    s.(conns := s.conns[c := conn])
  }

  /** `pending.ReplyChan <- reply`, possible only while the single slot is free. */
  function Send(s: State, k: nat, reply: Reply): State
    requires k < |s.chans|
  {
    var ch := s.chans[k];
    s.(chans := s.chans[k := ch.(buf := ch.buf + [reply], sent := ch.sent + 1)])
  }

  /** `<-replyChan`, possible only while the slot is taken. */
  function Receive(s: State, k: nat): State
    requires k < |s.chans| && s.chans[k].buf != []
  {
    var ch := s.chans[k];
    s.(chans := s.chans[k := ch.(buf := ch.buf[1..], received := ch.received + 1)])
  }

  /** Call returns the SendMessage error and leaves the request registered. */
  function Abandon(s: State, k: nat): State
    requires k < |s.chans|
  {
    s.(chans := s.chans[k := s.chans[k].(abandoned := true)])
  }

  /** The body of GetConnection, leaving the map lock. */
  function GetConnection(s: State, t: nat, a: Addr, j: Job): State
    requires t < |s.threads|
  {
    if a in s.cmap then
      Goto(s.(mapLock := None), t, NeedLock(s.cmap[a], j))
    else
      var created := Conn(a, Init, map[], 0, None, 0, 0);
      Goto(s.(mapLock := None, conns := s.conns + [created], cmap := s.cmap[a := |s.conns|]),
           t, NeedLock(|s.conns|, j))
  }

  /** State becomes "closed" and the wake-up loop starts over the requests pending at that moment. */
  function BeginClose(s: State, t: nat, c: nat): State
    requires t < |s.threads| && c < |s.conns|
  {
    Goto(SetConn(s, c, s.conns[c].(phase := Closed)), t, Closing(c, s.conns[c].pending.Keys))
  }

  function Unlock(s: State, t: nat, c: nat, pc: Pc): State
    requires t < |s.threads| && c < |s.conns|
  {
    Goto(SetConn(s, c, s.conns[c].(lock := None)), t, pc)
  }

  /** NewRequest followed by the unlock in Call. */
  function Register(s: State, t: nat, c: nat): State
    requires t < |s.threads| && c < |s.conns|
  {
    var conn := s.conns[c];
    var k := |s.chans|;
    var s1 := s.(chans := s.chans + [Chan(c, conn.nextId, t, [], 0, 0, None, false)]);
    Unlock(SetConn(s1, c, conn.(pending := conn.pending[conn.nextId := k], nextId := conn.nextId + 1)),
           t, c, Sending(k))
  }

  /** The critical section of HandleResponse. */
  function TakePending(s: State, t: nat, c: nat, id: nat): State
    requires t < |s.threads| && c < |s.conns|
    requires PendingInRange(s, s.conns[c])
  {
    var conn := s.conns[c];
    if id in conn.pending then
      var k := conn.pending[id];
      var s1 := s.(chans := s.chans[k := s.chans[k].(taker := Some(t))]);
      Unlock(SetConn(s1, c, conn.(pending := conn.pending - {id})), t, c, Deliver(k))
    else
      Unlock(s, t, c, Done)
  }

  /** The body of RemoveConnection, leaving the map lock. */
  function RemoveConnection(s: State, t: nat, c: nat): State
    requires t < |s.threads| && c < |s.conns|
  {
    var conn := s.conns[c];
    var a := conn.addr;
    var mine := a in s.cmap && s.cmap[a] == c;
    var restart := mine || a !in s.cmap;
    var s1 := s.(mapLock := None, cmap := if mine then s.cmap - {a} else s.cmap);
    var s2 := SetConn(s1, c, conn.(removals := conn.removals + 1,
                                   reconnects := conn.reconnects + if restart then 1 else 0));
    var s3 := Goto(s2, t, Leaving(c));
    if restart then s3.(threads := s3.threads + [NeedConn(a, ReconnectJob)]) else s3
  }

  /** One step of a goroutine that holds the connection lock, before any close has begun. */
  function UnderLock(s: State, t: nat, c: nat, j: Job, choice: Choice): Option<State>
    requires t < |s.threads| && c < |s.conns|
    requires PendingInRange(s, s.conns[c])
  {
    var phase := s.conns[c].phase;
    match j
    case CloseJob => Some(if phase.Closed? then Unlock(s, t, c, Done) else BeginClose(s, t, c))
    case ResponseJob(id) => Some(TakePending(s, t, c, id))
    case _ =>
      match phase
      case Closed => Some(Unlock(s, t, c, Done))
      case Connected => Some(if j.CallJob? then Register(s, t, c) else Unlock(s, t, c, Done))
      case Init =>
        match choice
        case Ok => Some(SetConn(s, c, s.conns[c].(phase := Connected)))
        case Fail => Some(BeginClose(s, t, c))
        case Pick(_) => None
  }

  /** One step of goroutine `t`, or None while it is blocked. */
  function Exec(s: State, t: nat, choice: Choice): Option<State>
    requires t < |s.threads| && Ready(s, t)
  {
    match s.threads[t]
    case NeedConn(a, j) => if s.mapLock.None? then Some(Goto(s.(mapLock := Some(t)), t, InGetConn(a, j))) else None
    case InGetConn(a, j) => Some(GetConnection(s, t, a, j))
    case NeedLock(c, j) =>
      if s.conns[c].lock.None? then Some(Goto(SetConn(s, c, s.conns[c].(lock := Some(t))), t, Locked(c, j))) else None
    case Locked(c, j) => UnderLock(s, t, c, j, choice)
    case Closing(c, todo) =>
      if todo == {} then Some(Goto(s, t, NeedMap(c)))
      else if choice.Pick? && choice.req in todo && choice.req in s.conns[c].pending then
        var k := s.conns[c].pending[choice.req];
        if s.chans[k].buf == [] then Some(Goto(Send(s, k, ConnectionClosed), t, Closing(c, todo - {choice.req})))
        else None
      else None
    case NeedMap(c) => if s.mapLock.None? then Some(Goto(s.(mapLock := Some(t)), t, InRemove(c))) else None
    case InRemove(c) => Some(RemoveConnection(s, t, c))
    case Leaving(c) => Some(Unlock(s, t, c, Done))
    case Sending(k) =>
      (match choice
       case Ok => Some(Goto(s, t, Waiting(k)))
       case Fail => Some(Goto(Abandon(s, k), t, Done))
       case Pick(_) => None)
    case Waiting(k) =>
      if s.chans[k].buf == [] then None else Some(Goto(Receive(s, k), t, Done))
    case Deliver(k) => if s.chans[k].buf == [] then Some(Goto(Send(s, k, Response), t, Done)) else None
    case Done => None
  }

  /** A step of the whole system; the spawning steps are the environment's. */
  function Apply(s: State, step: Step): Option<State> {
    match step
    case SpawnCall(a) => Some(s.(threads := s.threads + [NeedConn(a, CallJob)]))
    case SpawnClose(c) =>
      if c < |s.conns| then Some(s.(threads := s.threads + [NeedLock(c, CloseJob)])) else None
    case SpawnResponse(c, id) =>
      if c < |s.conns| then Some(s.(threads := s.threads + [NeedLock(c, ResponseJob(id))])) else None
    case Run(t, choice) => if t < |s.threads| && Ready(s, t) then Exec(s, t, choice) else None
  }

  /** Runs a schedule; None when one of its steps is blocked at its turn. */
  function RunAll(s: State, steps: seq<Step>): Option<State>
    decreases steps
  {
    if steps == [] then Some(s)
    else
      match Apply(s, steps[0])
      case None => None
      case Some(s') => RunAll(s', steps[1..])
  }

  /** The states some schedule reaches from the empty one. */
  ghost predicate Reachable(s: State) {
    exists steps: seq<Step> :: RunAll(INITIAL, steps) == Some(s)
  }
}
