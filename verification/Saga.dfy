/**
 The endpoint-update saga of `noobaa connection update`: pause, patch, update core connections,
 resume, with a rollback at every failure point.

 A world holds the API server's copy of every store, the command's own in-memory objects (which
 share nothing with the server until a write), and the core's external connections.  `bad` holds the
 numbers of the writes that fail; a failed write changes nothing outside the command's memory.
 */
module Saga {
  import opened Wrappers

  const PAUSE_RECONCILE := "noobaa.io/pause-reconcile"

  /** A BackingStore or NamespaceStore is named by its kind and name. */
  datatype Key = BackingStore(name: string) | NamespaceStore(name: string)

  datatype StoreType = S3Compatible | IBMCos | OtherType

  /** The two endpoint-bearing parts of a spec are optional; `rest` is everything the command never touches. */
  datatype Store = Store(typ: StoreType, s3: Option<string>, cos: Option<string>, annotations: map<string, string>,
                         rest: string)

  datatype Connection = Connection(endpoint: string, endpointType: string)

  // ---------------------------------------------------------------- stores

  /** The endpoint a store is matched on, if its type carries one. */
  function EndpointOf(st: Store): Option<string> {
    match st.typ
    case S3Compatible => st.s3
    case IBMCos => st.cos
    case OtherType => None
  }

  function WithEndpoint(st: Store, endpoint: string): Store {
    match st.typ
    case S3Compatible => st.(s3 := Some(endpoint))
    case IBMCos => st.(cos := Some(endpoint))
    case OtherType => st
  }

  function WithPause(st: Store, pause: bool): Store {
    st.(annotations := if pause then st.annotations[PAUSE_RECONCILE := "true"] else st.annotations - {PAUSE_RECONCILE})
  }

  predicate Paused(st: Store) {
    PAUSE_RECONCILE in st.annotations && st.annotations[PAUSE_RECONCILE] == "true"
  }

  /** S3-compatible and IBM COS stores have an endpoint, which is what an edit sets, leaving all else alone. */
  lemma EndpointLaws(st: Store, endpoint: string)
    ensures EndpointOf(st) == (if st.typ.S3Compatible? then st.s3 else if st.typ.IBMCos? then st.cos else None)
    ensures EndpointOf(WithEndpoint(st, endpoint)) == if st.typ.OtherType? then None else Some(endpoint)
    ensures var e := WithEndpoint(st, endpoint);
            && e == st.(s3 := e.s3, cos := e.cos)
            && (st.typ.S3Compatible? || e.s3 == st.s3) && (st.typ.IBMCos? || e.cos == st.cos)
    ensures Paused(WithPause(st, true)) && !Paused(WithPause(st, false))
  {
  }

  // ---------------------------------------------------------------- the world

  /** A store as the API server holds it and as the command holds it in memory. */
  datatype Cell = Cell(server: Store, mem: Store)

  datatype Kind = Pausing | Patching | Connecting | Reverting | Unpausing

  /** One attempted write and the stores as they were just before it. */
  datatype Event = Event(kind: Kind, before: map<Key, Cell>)

  datatype World = World(stores: map<Key, Cell>, core: map<string, Connection>, writes: nat, log: seq<Event>)

  /** A store after its in-memory object was edited and written, with outcome `written`. */
  function CellAfter(c: Cell, edit: Store -> Store, written: bool): Cell {
    Cell(if written then edit(c.mem) else c.server, edit(c.mem))
  }

  /** Edits the in-memory object `k` and calls KubeUpdate on it. */
  function EditAndWrite(bad: set<nat>, w: World, k: Key, edit: Store -> Store, kind: Kind): (r: World)
    requires k in w.stores
    ensures r.stores.Keys == w.stores.Keys
  {
    w.(stores := w.stores[k := CellAfter(w.stores[k], edit, w.writes !in bad)],
       writes := w.writes + 1, log := w.log + [Event(kind, w.stores)])
  }

  function UpdateConnection(bad: set<nat>, w: World, name: string, c: Connection, kind: Kind): World {
    w.(core := if w.writes !in bad then w.core[name := c] else w.core,
       writes := w.writes + 1, log := w.log + [Event(kind, w.stores)])
  }

  predicate Has(w: World, keys: seq<Key>) {
    forall k :: k in keys ==> k in w.stores
  }

  predicate Distinct<T(==)>(s: seq<T>) {
    forall i, j :: 0 <= i < j < |s| ==> s[i] != s[j]
  }

  // ---------------------------------------------------------------- the loops

  /** Where a loop stopped: the world it left and how many items it got through. */
  datatype Pass = Pass(world: World, done: nat)

  /**
   The loops of setPauseAnnotation, patchEndpoints and rollback over stores: edit the in-memory
   object, write it, and on failure either stop or carry on.
   */
  function StorePass(bad: set<nat>, w: World, keys: seq<Key>, edit: Store -> Store, kind: Kind, stop: bool): Pass
    requires Has(w, keys)
    decreases keys
  {
    if keys == [] then Pass(w, 0)
    else
      var w1 := EditAndWrite(bad, w, keys[0], edit, kind);
      if stop && w.writes in bad then Pass(w1, 0)
      else
        var r := StorePass(bad, w1, keys[1..], edit, kind, stop);
        Pass(r.world, r.done + 1)
  }

  datatype Entry = Entry(name: string, endpointType: string)

  /** The loops of RunUpdate and rollback over core connections. */
  function ConnPass(bad: set<nat>, w: World, entries: seq<Entry>, endpoint: string, kind: Kind, stop: bool): Pass
    decreases entries
  {
    if entries == [] then Pass(w, 0)
    else
      var e := entries[0];
      var w1 := UpdateConnection(bad, w, e.name, Connection(endpoint, e.endpointType), kind);
      if stop && w.writes in bad then Pass(w1, 0)
      else
        var r := ConnPass(bad, w1, entries[1..], endpoint, kind, stop);
        Pass(r.world, r.done + 1)
  }

  // ---------------------------------------------------------------- what a loop over stores does

  /** How many writes a loop over `total` items attempted. */
  function Attempts(total: nat, done: nat): nat {
    if done < total then done + 1 else total
  }

  /** How far a loop gets, and the outcomes that let it get there. */
  lemma {:induction false} StorePassCount(bad: set<nat>, w: World, keys: seq<Key>, edit: Store -> Store, kind: Kind,
                                          stop: bool)
    requires Has(w, keys)
    ensures var r := StorePass(bad, w, keys, edit, kind, stop);
            && r.done <= |keys|
            && (!stop ==> r.done == |keys|)
            && (stop ==> forall j :: w.writes <= j < w.writes + r.done ==> j !in bad)
            && (r.done < |keys| ==> w.writes + r.done in bad)
            && r.world.writes == w.writes + Attempts(|keys|, r.done) && r.world.core == w.core
            && r.world.stores.Keys == w.stores.Keys
    decreases keys
  {
    if keys == [] {
    } else if stop && w.writes in bad {
    } else {
      StorePassCount(bad, EditAndWrite(bad, w, keys[0], edit, kind), keys[1..], edit, kind, stop);
    }
  }

  /** A store that is not on the list is as it was. */
  lemma {:induction false} StorePassFrame(bad: set<nat>, w: World, keys: seq<Key>, edit: Store -> Store, kind: Kind,
                                          stop: bool, k: Key)
    requires Has(w, keys) && k !in keys && k in w.stores
    ensures var r := StorePass(bad, w, keys, edit, kind, stop); k in r.world.stores && r.world.stores[k] == w.stores[k]
    decreases keys
  {
    if keys == [] {
    } else if stop && w.writes in bad {
    } else {
      StorePassFrame(bad, EditAndWrite(bad, w, keys[0], edit, kind), keys[1..], edit, kind, stop, k);
    }
  }

  /** A store on the list is edited in memory if the loop came to it, and on the server if its write succeeded. */
  lemma {:induction false} StorePassAt(bad: set<nat>, w: World, keys: seq<Key>, edit: Store -> Store, kind: Kind,
                                       stop: bool, i: nat)
    requires Has(w, keys) && Distinct(keys) && i < |keys|
    ensures var r := StorePass(bad, w, keys, edit, kind, stop);
            && keys[i] in r.world.stores
            && r.world.stores[keys[i]] ==
                 if i < Attempts(|keys|, r.done) then CellAfter(w.stores[keys[i]], edit, w.writes + i !in bad)
                 else w.stores[keys[i]]
    decreases keys
  {
    var w1 := EditAndWrite(bad, w, keys[0], edit, kind);
    if stop && w.writes in bad {
    } else if i == 0 {
      StorePassFrame(bad, w1, keys[1..], edit, kind, stop, keys[0]);
    } else {
      StorePassAt(bad, w1, keys[1..], edit, kind, stop, i - 1);
    }
  }

  /** Whether a store is paused both on the server and in memory. */
  predicate PausedCell(c: Cell) {
    Paused(c.server) && Paused(c.mem)
  }

  predicate AllPaused(stores: map<Key, Cell>, keys: seq<Key>) {
    forall k :: k in keys ==> k in stores && PausedCell(stores[k])
  }

  /** The writes of `w'` after those of `w` are all of kind `kind`. */
  predicate LogGrows(w: World, w': World, kind: Kind) {
    && |w.log| <= |w'.log| && w'.log[..|w.log|] == w.log
    && forall j :: |w.log| <= j < |w'.log| ==> w'.log[j].kind == kind
  }

  lemma {:induction false} StorePassLog(bad: set<nat>, w: World, keys: seq<Key>, edit: Store -> Store, kind: Kind,
                                        stop: bool)
    requires Has(w, keys)
    ensures LogGrows(w, StorePass(bad, w, keys, edit, kind, stop).world, kind)
    decreases keys
  {
    if keys == [] {
    } else {
      var w1 := EditAndWrite(bad, w, keys[0], edit, kind);
      assert w1.log[..|w.log|] == w.log;
      if !(stop && w.writes in bad) {
        StorePassLog(bad, w1, keys[1..], edit, kind, stop);
        var w' := StorePass(bad, w1, keys[1..], edit, kind, stop).world;
        assert w'.log[..|w.log|] == w'.log[..|w1.log|][..|w.log|];
        assert w'.log[|w.log|] == w'.log[..|w1.log|][|w.log|];
      }
    }
  }

  /** A property of one store's cell that every edit keeps holds after the loop. */
  lemma {:induction false} StorePassKeeps(bad: set<nat>, w: World, keys: seq<Key>, edit: Store -> Store, kind: Kind,
                                          stop: bool,
                                          k: Key, p: Cell -> bool)
    requires Has(w, keys) && k in w.stores && p(w.stores[k])
    requires forall c, b :: p(c) ==> p(CellAfter(c, edit, b))
    ensures var r := StorePass(bad, w, keys, edit, kind, stop); k in r.world.stores && p(r.world.stores[k])
    decreases keys
  {
    if keys != [] && !(stop && w.writes in bad) {
      StorePassKeeps(bad, EditAndWrite(bad, w, keys[0], edit, kind), keys[1..], edit, kind, stop, k, p);
    }
  }

  /** Stores that are paused stay paused at every write of a loop whose edit leaves the annotation alone. */
  lemma {:induction false} StorePassPaused(bad: set<nat>, w: World, keys: seq<Key>, edit: Store -> Store, kind: Kind,
                                           stop: bool, all: seq<Key>)
    requires Has(w, keys) && AllPaused(w.stores, all) && forall st :: Paused(st) ==> Paused(edit(st))
    ensures var w' := StorePass(bad, w, keys, edit, kind, stop).world;
            && AllPaused(w'.stores, all)
            && forall j :: |w.log| <= j < |w'.log| ==> AllPaused(w'.log[j].before, all)
    decreases keys
  {
    if keys == [] {
    } else {
      var w1 := EditAndWrite(bad, w, keys[0], edit, kind);
      if !(stop && w.writes in bad) {
        StorePassPaused(bad, w1, keys[1..], edit, kind, stop, all);
        StorePassLog(bad, w1, keys[1..], edit, kind, stop);
        var w' := StorePass(bad, w1, keys[1..], edit, kind, stop).world;
        assert w'.log[|w.log|] == w'.log[..|w1.log|][|w.log|];
      }
    }
  }

  // ---------------------------------------------------------------- what a loop over connections does

  /** How far a loop over connections gets; it touches no store. */
  lemma {:induction false} ConnPassCount(bad: set<nat>, w: World, entries: seq<Entry>, endpoint: string, kind: Kind,
                                         stop: bool)
    ensures var r := ConnPass(bad, w, entries, endpoint, kind, stop);
            && r.done <= |entries|
            && (!stop ==> r.done == |entries|)
            && (stop ==> forall j :: w.writes <= j < w.writes + r.done ==> j !in bad)
            && r.world.writes == w.writes + Attempts(|entries|, r.done) && r.world.stores == w.stores
            && (r.done < |entries| ==> w.writes + r.done in bad)
    decreases entries
  {
    if entries == [] {
    } else if stop && w.writes in bad {
    } else {
      var w1 := UpdateConnection(bad, w, entries[0].name, Connection(endpoint, entries[0].endpointType), kind);
      ConnPassCount(bad, w1, entries[1..], endpoint, kind, stop);
    }
  }

  lemma {:induction false} ConnPassLog(bad: set<nat>, w: World, entries: seq<Entry>, endpoint: string, kind: Kind,
                                       stop: bool)
    ensures var w' := ConnPass(bad, w, entries, endpoint, kind, stop).world;
            && LogGrows(w, w', kind) && forall j :: |w.log| <= j < |w'.log| ==> w'.log[j].before == w.stores
    decreases entries
  {
    if entries != [] {
      var w1 := UpdateConnection(bad, w, entries[0].name, Connection(endpoint, entries[0].endpointType), kind);
      assert w1.log[..|w.log|] == w.log;
      if !(stop && w.writes in bad) {
        ConnPassLog(bad, w1, entries[1..], endpoint, kind, stop);
        var w' := ConnPass(bad, w1, entries[1..], endpoint, kind, stop).world;
        assert w'.log[..|w.log|] == w'.log[..|w1.log|][..|w.log|];
        assert w'.log[|w.log|] == w'.log[..|w1.log|][|w.log|];
      }
    }
  }

  predicate Names(entries: seq<Entry>, name: string) {
    exists i :: 0 <= i < |entries| && entries[i].name == name
  }

  predicate DistinctNames(entries: seq<Entry>) {
    forall i, j :: 0 <= i < j < |entries| ==> entries[i].name != entries[j].name
  }

  lemma {:induction false} ConnPassFrame(bad: set<nat>, w: World, entries: seq<Entry>, endpoint: string, kind: Kind,
                                         stop: bool, name: string)
    requires !Names(entries, name)
    ensures var core' := ConnPass(bad, w, entries, endpoint, kind, stop).world.core;
            (name in core' <==> name in w.core) && (name in w.core ==> core'[name] == w.core[name])
    decreases entries
  {
    if entries != [] {
      assert entries[0].name != name;
      if !(stop && w.writes in bad) {
        var w1 := UpdateConnection(bad, w, entries[0].name, Connection(endpoint, entries[0].endpointType), kind);
        assert forall i :: 0 <= i < |entries[1..]| ==> entries[1..][i] == entries[i + 1];
        ConnPassFrame(bad, w1, entries[1..], endpoint, kind, stop, name);
      }
    }
  }

  lemma {:induction false} ConnPassAt(bad: set<nat>, w: World, entries: seq<Entry>, endpoint: string, kind: Kind,
                                      stop: bool, i: nat)
    requires DistinctNames(entries) && i < |entries| && entries[i].name in w.core
    ensures var r := ConnPass(bad, w, entries, endpoint, kind, stop);
            && entries[i].name in r.world.core
            && r.world.core[entries[i].name] ==
                 if i < Attempts(|entries|, r.done) && w.writes + i !in bad then
                     Connection(endpoint, entries[i].endpointType)
                 else w.core[entries[i].name]
    decreases entries
  {
    var w1 := UpdateConnection(bad, w, entries[0].name, Connection(endpoint, entries[0].endpointType), kind);
    if stop && w.writes in bad {
    } else if i == 0 {
      ConnPassFrame(bad, w1, entries[1..], endpoint, kind, stop, entries[0].name);
    } else {
      ConnPassAt(bad, w1, entries[1..], endpoint, kind, stop, i - 1);
    }
  }
}
