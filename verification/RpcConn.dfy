/**
 The critical sections of one connection and of the address map, on the objects themselves.  Each
 method runs under the lock its original takes; RpcRefine proves that it does what the steps of
 RpcProtocol say.
 */
module RpcConn {
  import opened Wrappers
  import opened RpcProtocol

  /** `make(chan error, 1)`: a second send would block. */
  class ReplyChan {
    var slot: Option<Reply>

    constructor ()
      ensures slot.None?
    {
      slot := None;
    }

    /** A send that must not block: the slot has to be free. */
    method Send(reply: Reply)
      requires slot.None?
      modifies this
      ensures slot == Some(reply)
    {
      slot := Some(reply);
    }

    /** A receive that need not wait: the slot is taken. */
    method Receive() returns (reply: Reply)
      requires slot.Some?
      modifies this
      ensures slot.None? && Some(reply) == old(slot)
    {
      reply := slot.value;
      slot := None;
    }
  }

  /** The websocket: never dialed, open, or closed by CloseUnderLock. */
  datatype Socket = NoSocket | Open | Shut

  const RECONNECT_DELAY := 3

  class Connection {
    const address: string
    var state: Phase
    var pending: map<nat, ReplyChan>
    var nextRequestId: nat
    var socket: Socket
    /** The ping goroutine runs: cancelPings is set. */
    var pinging: bool
    /** The reader goroutines started so far. */
    var readers: nat
    /** The seconds a reconnect waits before it dials. */
    var reconnectDelay: nat

    /**
     Request ids are issued in order, each pending request has a channel of its own, and until the
     connection is closed all those channels are empty.  The socket is open and pinged exactly while
     the connection is connected, and no connection ever has more than one reader.
     */
    ghost predicate Valid()
      reads this, pending.Values
    {
      && (forall id :: id in pending ==> id < nextRequestId)
      && (forall i, j :: i in pending && j in pending && i != j ==> pending[i] != pending[j])
      && (!state.Closed? ==> forall id :: id in pending ==> pending[id].slot.None?)
      && (state.Connected? <==> socket.Open?) && (state.Connected? <==> pinging)
      && readers == (if socket.NoSocket? then 0 else 1) && (state.Init? ==> socket.NoSocket?)
    }

    constructor (address: string)
      ensures Valid() && this.address == address && state.Init? && pending == map[] && nextRequestId == 0
      ensures reconnectDelay == 0
    {
      this.address, this.state, this.pending, this.nextRequestId := address, Init, map[], 0;
      this.socket, this.pinging, this.readers, this.reconnectDelay := NoSocket, false, 0, 0;
    }

    /** NewRequest registers an empty channel under the next id. */
    method NewRequest() returns (id: nat, chan: ReplyChan)
      requires Valid() && state.Connected?
      modifies `pending, `nextRequestId
      ensures Valid() && fresh(chan) && chan.slot.None?
      ensures id == old(nextRequestId) && nextRequestId == id + 1 && id !in old(pending)
      ensures pending == old(pending)[id := chan]
    {
      chan := new ReplyChan();
      id := nextRequestId;
      nextRequestId := nextRequestId + 1;
      pending := pending[id := chan];
    }

    /**
     The critical section of HandleResponse: the request leaves the map, and with it any later claim to
     its channel.
     */
    method TakePending(id: nat) returns (chan: ReplyChan?)
      requires Valid()
      modifies `pending
      ensures Valid() && pending == old(pending) - {id}
      ensures id in old(pending) ==> chan == old(pending)[id] && chan !in pending.Values
      ensures id !in old(pending) ==> chan == null
    {
      chan := if id in pending then pending[id] else null;
      pending := pending - {id};
    }

    /**
     The wake-up loop of CloseUnderLock.  Every send finds a free slot, so the loop cannot block; the
     pending map is left as it is, now with a close error in every channel.
     */
    method WakeAll()
      requires Valid()
      requires forall id :: id in pending ==> pending[id].slot.None?
      modifies pending.Values
      ensures forall id :: id in pending ==> pending[id].slot == Some(ConnectionClosed)
    {
      var todo := pending.Keys;
      while todo != {}
        invariant todo <= pending.Keys
        invariant forall id :: id in pending ==> pending[id].slot == if id in todo then None else Some(ConnectionClosed)
        decreases todo
      {
        var id :| id in todo;
        assert pending[id] in pending.Values;
        pending[id].Send(ConnectionClosed);
        todo := todo - {id};
      }
    }

    /** CloseUnderLock, together with the RemoveConnection it ends in. */
    method CloseUnderLock(rpc: Rpc)
      requires Valid() && rpc.Valid()
      modifies `state, `socket, `pinging, pending.Values, rpc
      ensures Valid() && rpc.Valid() && state.Closed? && !socket.Open? && !pinging
      ensures socket == if old(socket).Open? then Shut else old(socket)
      ensures old(state).Closed? ==>
                && rpc.connMap == old(rpc.connMap) && rpc.reconnecting == old(rpc.reconnecting)
                && forall id :: id in pending ==> pending[id].slot == old(pending[id].slot)
      ensures !old(state).Closed? ==>
                && (forall id :: id in pending ==> pending[id].slot == Some(ConnectionClosed))
                && this !in rpc.connMap.Values && rpc.Removed(this, old(rpc.connMap), old(rpc.reconnecting))
    {
      if state.Closed? { return; }
      state := Closed;
      pinging := false;
      if socket.Open? {
        socket := Shut;
      }
      WakeAll();
      rpc.RemoveConnection(this);
    }

    /**
     ConnectUnderLock: waits out the reconnect delay and dials only from the initial state; success opens
     the socket and starts one reader and the pings, and what a failed dial closes stays closed.
     */
    method ConnectUnderLock(rpc: Rpc, dialed: bool) returns (ok: bool, slept: nat)
      requires Valid() && rpc.Valid()
      modifies `state, `socket, `pinging, `readers, pending.Values, rpc
      ensures Valid() && rpc.Valid()
      ensures ok <==> old(state).Connected? || (old(state).Init? && dialed)
      ensures state == if ok then Connected else Closed
      ensures slept == if old(state).Init? then reconnectDelay else 0
      ensures readers == old(readers) + if old(state).Init? && dialed then 1 else 0
      ensures ok || old(state).Closed? ==>
                && rpc.connMap == old(rpc.connMap) && rpc.reconnecting == old(rpc.reconnecting)
                && forall id :: id in pending ==> pending[id].slot == old(pending[id].slot)
      ensures !ok && old(state).Init? ==>
                && this !in rpc.connMap.Values && rpc.Removed(this, old(rpc.connMap), old(rpc.reconnecting))
                && forall id :: id in pending ==> pending[id].slot == Some(ConnectionClosed)
    {
      slept := 0;
      if state.Connected? { return true, 0; }
      if !state.Init? { return false, 0; }
      if reconnectDelay != 0 {
        slept := reconnectDelay;
      }
      if !dialed {
        CloseUnderLock(rpc);
        return false, slept;
      }
      socket, state, readers, pinging := Open, Connected, readers + 1, true;
      return true, slept;
    }

    /** Reconnect: a connection that was never dialed waits the full delay. */
    method Reconnect(rpc: Rpc, dialed: bool) returns (slept: nat)
      requires Valid() && rpc.Valid()
      modifies `state, `socket, `pinging, `readers, `reconnectDelay, pending.Values, rpc
      ensures Valid() && rpc.Valid() && !state.Init? && reconnectDelay == RECONNECT_DELAY
      ensures slept == if old(state).Init? then RECONNECT_DELAY else 0
      ensures state.Connected? <==> old(state).Connected? || (old(state).Init? && dialed)
      ensures state.Connected? || old(state).Closed? ==>
                && rpc.connMap == old(rpc.connMap) && rpc.reconnecting == old(rpc.reconnecting)
                && forall id :: id in pending ==> pending[id].slot == old(pending[id].slot)
      ensures !state.Connected? && old(state).Init? ==>
                && this !in rpc.connMap.Values && rpc.Removed(this, old(rpc.connMap), old(rpc.reconnecting))
                && forall id :: id in pending ==> pending[id].slot == Some(ConnectionClosed)
    {
      reconnectDelay := RECONNECT_DELAY;
      var _, n := ConnectUnderLock(rpc, dialed);
      slept := n;
    }

    /**
     The locked part of Call: a registered request on an open connection, or an error with nothing
     registered, where a failed dial has also woken every waiter and left the map.
     */
    method BeginCall(rpc: Rpc, dialed: bool) returns (chan: ReplyChan?)
      requires Valid() && rpc.Valid()
      modifies `state, `socket, `pinging, `readers, `pending, `nextRequestId, pending.Values, rpc
      ensures Valid() && rpc.Valid()
      ensures chan != null <==> old(state).Connected? || (old(state).Init? && dialed)
      ensures state == if chan != null then Connected else Closed
      ensures chan == null ==> pending == old(pending) && nextRequestId == old(nextRequestId)
      ensures chan != null ==>
                && fresh(chan) && chan.slot.None? && pending == old(pending)[old(nextRequestId) := chan]
                && nextRequestId == old(nextRequestId) + 1
      ensures chan != null || old(state).Closed? ==>
                && rpc.connMap == old(rpc.connMap) && rpc.reconnecting == old(rpc.reconnecting)
                && forall id :: id in old(pending) ==> old(pending)[id].slot == old(pending[id].slot)
      ensures chan == null && old(state).Init? ==>
                && this !in rpc.connMap.Values && rpc.Removed(this, old(rpc.connMap), old(rpc.reconnecting))
                && forall id :: id in pending ==> pending[id].slot == Some(ConnectionClosed)
    {
      var ok, _ := ConnectUnderLock(rpc, dialed);
      if !ok { return null; }
      var _, c := NewRequest();
      return c;
    }
  }

  predicate IsWebsocket(address: string) {
    "wss:" <= address || "ws:" <= address
  }

  class Rpc {
    var connMap: map<string, Connection>
    /** The addresses for which a reconnect goroutine was started, in order. */
    var reconnecting: seq<string>

    /** Only websocket connections are mapped, each under its own address. */
    ghost predicate Valid()
      reads this
    {
      forall a :: a in connMap ==> connMap[a].address == a && IsWebsocket(a)
    }

    /** What RemoveConnection makes of the map and of the reconnects it found. */
    ghost predicate Removed(conn: Connection, was: map<string, Connection>, started: seq<string>)
      reads this
    {
      var mine := conn.address in was && was[conn.address] == conn;
      && connMap == (if mine then was - {conn.address} else was)
      && reconnecting == started + if mine || conn.address !in was then [conn.address] else []
    }

    constructor ()
      ensures Valid() && connMap == map[] && reconnecting == []
    {
      connMap, reconnecting := map[], [];
    }

    /** GetConnection: the mapped connection, or a new one that is mapped only for a websocket address. */
    method GetConnection(address: string) returns (conn: Connection)
      requires Valid()
      modifies this
      ensures Valid() && reconnecting == old(reconnecting) && conn.address == address
      ensures address in old(connMap) ==> connMap == old(connMap) && conn == connMap[address]
      ensures address !in old(connMap) ==>
                fresh(conn) && conn.Valid() && conn.state.Init? && conn.pending == map[] && conn.nextRequestId == 0
      ensures address !in old(connMap) && IsWebsocket(address) ==> connMap == old(connMap)[address := conn]
      ensures !IsWebsocket(address) ==> connMap == old(connMap)
    {
      if IsWebsocket(address) {
        if address in connMap {
          conn := connMap[address];
        } else {
          conn := new Connection(address);
          connMap := connMap[address := conn];
        }
      } else {
        conn := new Connection(address);
      }
    }

    /**
     RemoveConnection never evicts another connection: the entry goes only if it is `conn` itself, and a
     reconnect starts unless some other connection has already taken the address.
     */
    method RemoveConnection(conn: Connection)
      requires Valid()
      modifies this
      ensures Valid() && conn !in connMap.Values
      ensures Removed(conn, old(connMap), old(reconnecting))
    {
      var a := conn.address;
      var present := a in connMap;
      var mine := present && connMap[a] == conn;
      if mine {
        connMap := connMap - {a};
      }
      if mine || !present {
        reconnecting := reconnecting + [a];
      }
    }
  }
}
