/**
 The whole `connection update` command, and what it leaves behind for every pattern of write failures.
 */
module SagaRun {
  import opened Wrappers
  import opened Saga

  function PauseEdit(pause: bool): Store -> Store {
    st => WithPause(st, pause)
  }

  function EndpointEdit(endpoint: string): Store -> Store {
    st => WithEndpoint(st, endpoint)
  }

  // ---------------------------------------------------------------- discovery

  /** findMatchingStores: the listed stores whose endpoint is `endpoint`, in list order. */
  function Matching(stores: map<Key, Cell>, listed: seq<Key>, endpoint: string): seq<Key>
    requires forall k :: k in listed ==> k in stores
  {
    if listed == [] then []
    else
      var rest := Matching(stores, listed[1..], endpoint);
      if EndpointOf(stores[listed[0]].mem) == Some(endpoint) then [listed[0]] + rest else rest
  }

  lemma {:induction false} MatchingExact(stores: map<Key, Cell>, listed: seq<Key>, endpoint: string)
    requires (forall k :: k in listed ==> k in stores) && Distinct(listed)
    ensures var m := Matching(stores, listed, endpoint);
            Distinct(m) && forall k :: k in m <==> k in listed && EndpointOf(stores[k].mem) == Some(endpoint)
  {
    if listed != [] {
      MatchingExact(stores, listed[1..], endpoint);
      assert listed == [listed[0]] + listed[1..];
      assert listed[0] !in listed[1..];
    }
  }

  /** And they come in the order of the list. */
  lemma {:induction false} MatchingInOrder(stores: map<Key, Cell>, a: seq<Key>, b: seq<Key>, endpoint: string)
    requires forall k :: k in a + b ==> k in stores
    ensures (forall k :: k in a ==> k in stores) && (forall k :: k in b ==> k in stores)
    ensures Matching(stores, a + b, endpoint) == Matching(stores, a, endpoint) + Matching(stores, b, endpoint)
    decreases a
  {
    assert forall k :: k in a ==> k in a + b;
    assert forall k :: k in b ==> k in a + b;
    if a == [] {
      assert a + b == b;
    } else {
      assert (a + b)[0] == a[0] && (a + b)[1..] == a[1..] + b;
      MatchingInOrder(stores, a[1..], b, endpoint);
    }
  }

  /** What findConnections returns, in some iteration order: one entry per connection on the old endpoint. */
  ghost predicate ListsConnections(entries: seq<Entry>, core: map<string, Connection>, endpoint: string) {
    && DistinctNames(entries)
    && (forall i :: 0 <= i < |entries| ==>
          entries[i].name in core && core[entries[i].name] == Connection(endpoint, entries[i].endpointType))
    && (forall name :: name in core && core[name].endpoint == endpoint ==> Names(entries, name))
  }

  // ---------------------------------------------------------------- the command

  datatype Outcome = NothingMatched | ValidationFailed | PauseFailed | PatchFailed(at: nat) | ReadFailed |
                     ConnectFailed(at: nat) | Completed

  /** The world it leaves, how it ended, and the number of the first write of its clean-up. */
  datatype Result = Result(world: World, outcome: Outcome, cleanup: nat)

  function Rollback(bad: set<nat>, w: World, patched: seq<Key>, old_: string, all: seq<Key>, updated: seq<Entry>): World
    requires Has(w, patched) && Has(w, all)
  {
    StorePassCount(bad, w, patched, EndpointEdit(old_), Reverting, false);
    var w1 := StorePass(bad, w, patched, EndpointEdit(old_), Reverting, false).world;
    ConnPassCount(bad, w1, updated, old_, Reverting, false);
    var w2 := ConnPass(bad, w1, updated, old_, Reverting, false).world;
    StorePass(bad, w2, all, PauseEdit(false), Unpausing, false).world
  }

  /** RunUpdate once every matched store is patched and the connections are known. */
  function AfterPatch(bad: set<nat>, w2: World, matched: seq<Key>, entries: seq<Entry>, old_: string,
                      new_: string): Result
    requires Has(w2, matched)
  {
    ConnPassCount(bad, w2, entries, new_, Connecting, true);
    var updated := ConnPass(bad, w2, entries, new_, Connecting, true);
    var w3 := updated.world;
    if updated.done < |entries| then
      Result(Rollback(bad, w3, matched, old_, matched, entries[..updated.done]), ConnectFailed(updated.done), w3.writes)
    else
      Result(StorePass(bad, w3, matched, PauseEdit(false), Unpausing, false).world, Completed, w3.writes)
  }

  /** RunUpdate once every matched store is paused. */
  function AfterPause(bad: set<nat>, w1: World, matched: seq<Key>, read: bool, entries: seq<Entry>, old_: string,
                      new_: string): Result
    requires Has(w1, matched)
  {
    StorePassCount(bad, w1, matched, EndpointEdit(new_), Patching, true);
    var patched := StorePass(bad, w1, matched, EndpointEdit(new_), Patching, true);
    var w2 := patched.world;
    if patched.done < |matched| then
      Result(Rollback(bad, w2, matched[..patched.done], old_, matched, []), PatchFailed(patched.done), w2.writes)
    else if !read then
      Result(Rollback(bad, w2, matched, old_, matched, []), ReadFailed, w2.writes)
    else
      AfterPatch(bad, w2, matched, entries, old_, new_)
  }

  /**
   RunUpdate over the matched stores.  `validated` covers the secrets and the pre-validation, `read`
   the reading of the system info, and `entries` is the order in which the connections are updated.
   */
  function RunUpdate(bad: set<nat>, w: World, matched: seq<Key>, validated: bool, read: bool, entries: seq<Entry>,
                     old_: string, new_: string): Result
    requires Has(w, matched)
  {
    if matched == [] then Result(w, NothingMatched, w.writes)
    else if !validated then Result(w, ValidationFailed, w.writes)
    else
      StorePassCount(bad, w, matched, PauseEdit(true), Pausing, true);
      var paused := StorePass(bad, w, matched, PauseEdit(true), Pausing, true);
      var w1 := paused.world;
      if paused.done < |matched| then
        Result(StorePass(bad, w1, matched, PauseEdit(false), Unpausing, false).world, PauseFailed, w1.writes)
      else
        AfterPause(bad, w1, matched, read, entries, old_, new_)
  }

  /** The stores as listed: the in-memory objects are what the server holds. */
  predicate Listed(w: World) {
    forall k :: k in w.stores ==> w.stores[k].mem == w.stores[k].server
  }

  /** A store back where it was, with reconciliation resumed. */
  function Restored(st: Store): Store {
    WithPause(st, false)
  }

  lemma PauseUndone(st: Store)
    ensures WithPause(WithPause(st, true), false) == WithPause(st, false)
  {
    var m := st.annotations;
    assert m[PAUSE_RECONCILE := "true"] - {PAUSE_RECONCILE} == m - {PAUSE_RECONCILE};
  }

  lemma EndpointUndone(st: Store, old_: string, new_: string)
    requires EndpointOf(st) == Some(old_)
    ensures WithEndpoint(WithEndpoint(st, new_), old_) == st
  {
  }

  lemma EditsCommute(st: Store, endpoint: string, pause: bool)
    ensures WithEndpoint(WithPause(st, pause), endpoint) == WithPause(WithEndpoint(st, endpoint), pause)
    ensures EndpointOf(WithPause(st, pause)) == EndpointOf(st)
  {
  }

  // ---------------------------------------------------------------- rollback

  /** What rollback does to one store, given that all its writes succeed. */
  lemma RollbackAt(bad: set<nat>, w: World, patched: seq<Key>, old_: string, all: seq<Key>, updated: seq<Entry>, i: nat)
    requires Has(w, all) && Distinct(all) && |patched| <= |all| && patched == all[..|patched|] && i < |all|
    requires forall j :: j >= w.writes ==> j !in bad
    ensures var w' := Rollback(bad, w, patched, old_, all, updated);
            var mem := w.stores[all[i]].mem;
            && all[i] in w'.stores
            && w'.stores[all[i]].server == WithPause(if i < |patched| then WithEndpoint(mem, old_) else mem, false)
  {
    var w1 := StorePass(bad, w, patched, EndpointEdit(old_), Reverting, false).world;
    StorePassCount(bad, w, patched, EndpointEdit(old_), Reverting, false);
    if i < |patched| {
      StorePassAt(bad, w, patched, EndpointEdit(old_), Reverting, false, i);
    } else {
      assert all[i] !in patched;
      StorePassFrame(bad, w, patched, EndpointEdit(old_), Reverting, false, all[i]);
    }
    ConnPassCount(bad, w1, updated, old_, Reverting, false);
    var w2 := ConnPass(bad, w1, updated, old_, Reverting, false).world;
    StorePassCount(bad, w2, all, PauseEdit(false), Unpausing, false);
    StorePassAt(bad, w2, all, PauseEdit(false), Unpausing, false, i);
  }

  /** One connection is the same in two cores. */
  predicate SameConn(core: map<string, Connection>, core': map<string, Connection>, name: string) {
    (name in core' <==> name in core) && (name in core ==> core'[name] == core[name])
  }

  /** Rollback leaves a connection that was not updated alone. */
  lemma RollbackOther(bad: set<nat>, w: World, patched: seq<Key>, old_: string, all: seq<Key>, updated: seq<Entry>,
                      name: string)
    requires Has(w, patched) && Has(w, all) && !Names(updated, name)
    ensures SameConn(w.core, Rollback(bad, w, patched, old_, all, updated).core, name)
  {
    StorePassCount(bad, w, patched, EndpointEdit(old_), Reverting, false);
    var w1 := StorePass(bad, w, patched, EndpointEdit(old_), Reverting, false).world;
    ConnPassCount(bad, w1, updated, old_, Reverting, false);
    var w2 := ConnPass(bad, w1, updated, old_, Reverting, false).world;
    StorePassCount(bad, w2, all, PauseEdit(false), Unpausing, false);
    ConnPassFrame(bad, w1, updated, old_, Reverting, false, name);
  }

  /** Rollback puts an updated connection back when its writes succeed. */
  lemma RollbackUpdated(bad: set<nat>, w: World, patched: seq<Key>, old_: string, all: seq<Key>, updated: seq<Entry>,
                        i: nat)
    requires Has(w, patched) && Has(w, all) && DistinctNames(updated) && i < |updated| && updated[i].name in w.core
    requires forall j :: j >= w.writes ==> j !in bad
    ensures var core' := Rollback(bad, w, patched, old_, all, updated).core;
            updated[i].name in core' && core'[updated[i].name] == Connection(old_, updated[i].endpointType)
  {
    StorePassCount(bad, w, patched, EndpointEdit(old_), Reverting, false);
    var w1 := StorePass(bad, w, patched, EndpointEdit(old_), Reverting, false).world;
    ConnPassCount(bad, w1, updated, old_, Reverting, false);
    var w2 := ConnPass(bad, w1, updated, old_, Reverting, false).world;
    StorePassCount(bad, w2, all, PauseEdit(false), Unpausing, false);
    ConnPassAt(bad, w1, updated, old_, Reverting, false, i);
  }

  // ---------------------------------------------------------------- what an aborted run leaves

  /** What the command is started on. */
  ghost predicate Start(w: World, matched: seq<Key>, entries: seq<Entry>, old_: string) {
    && Has(w, matched) && Distinct(matched) && Listed(w)
    && (forall k :: k in matched ==> EndpointOf(w.stores[k].mem) == Some(old_))
    && ListsConnections(entries, w.core, old_)
  }

  /** One store after the patch loop: written, edited only in memory, or not reached. */
  lemma PatchCell(bad: set<nat>, w: World, matched: seq<Key>, new_: string, i: nat, st: Store)
    requires Has(w, matched) && Distinct(matched) && i < |matched| && w.stores[matched[i]] == Cell(st, st)
    ensures var r := StorePass(bad, w, matched, EndpointEdit(new_), Patching, true);
            && matched[i] in r.world.stores
            && (i < r.done ==> r.world.stores[matched[i]] == Cell(WithEndpoint(st, new_), WithEndpoint(st, new_)))
            && (i == r.done ==> r.world.stores[matched[i]] == Cell(st, WithEndpoint(st, new_)))
            && (i > r.done ==> r.world.stores[matched[i]] == Cell(st, st))
  {
    StorePassCount(bad, w, matched, EndpointEdit(new_), Patching, true);
    StorePassAt(bad, w, matched, EndpointEdit(new_), Patching, true, i);
    var r := StorePass(bad, w, matched, EndpointEdit(new_), Patching, true);
    if i < r.done { assert w.writes + i !in bad; }
  }

  /** One store after a pause loop that got through. */
  lemma PausedAt(bad: set<nat>, w: World, matched: seq<Key>, i: nat)
    requires Has(w, matched) && Distinct(matched) && i < |matched|
    requires StorePass(bad, w, matched, PauseEdit(true), Pausing, true).done == |matched|
    ensures var w1 := StorePass(bad, w, matched, PauseEdit(true), Pausing, true).world;
            var st := WithPause(w.stores[matched[i]].mem, true);
            matched[i] in w1.stores && w1.stores[matched[i]] == Cell(st, st)
  {
    StorePassCount(bad, w, matched, PauseEdit(true), Pausing, true);
    StorePassAt(bad, w, matched, PauseEdit(true), Pausing, true, i);
    assert w.writes + i !in bad;
  }

  /** One store after a loop that removes the pause annotations. */
  lemma UnpausedAt(bad: set<nat>, w: World, matched: seq<Key>, i: nat)
    requires Has(w, matched) && Distinct(matched) && i < |matched|
    ensures var w' := StorePass(bad, w, matched, PauseEdit(false), Unpausing, false).world;
            var c := w.stores[matched[i]];
            && matched[i] in w'.stores
            && w'.stores[matched[i]].server == if w.writes + i in bad then c.server else WithPause(c.mem, false)
  {
    StorePassCount(bad, w, matched, PauseEdit(false), Unpausing, false);
    StorePassAt(bad, w, matched, PauseEdit(false), Unpausing, false, i);
  }

  /** The in-memory object after a pause loop, wherever that stopped. */
  lemma PausedMemory(bad: set<nat>, w: World, matched: seq<Key>, i: nat)
    requires Has(w, matched) && Distinct(matched) && i < |matched|
    ensures var w1 := StorePass(bad, w, matched, PauseEdit(true), Pausing, true).world;
            var mem := w.stores[matched[i]].mem;
            && matched[i] in w1.stores
            && (w1.stores[matched[i]].mem == mem || w1.stores[matched[i]].mem == WithPause(mem, true))
  {
    StorePassAt(bad, w, matched, PauseEdit(true), Pausing, true, i);
  }

  /** Abort during the pause loop. */
  lemma PauseAbort(bad: set<nat>, w: World, matched: seq<Key>, i: nat)
    requires Has(w, matched) && Distinct(matched) && Listed(w) && i < |matched|
    requires var r := StorePass(bad, w, matched, PauseEdit(true), Pausing, true);
             Has(r.world, matched) && forall j :: j >= r.world.writes ==> j !in bad
    ensures var w1 := StorePass(bad, w, matched, PauseEdit(true), Pausing, true).world;
            var w' := StorePass(bad, w1, matched, PauseEdit(false), Unpausing, false).world;
            matched[i] in w'.stores && w'.stores[matched[i]].server == Restored(w.stores[matched[i]].server)
  {
    PausedMemory(bad, w, matched, i);
    UnpausedAt(bad, StorePass(bad, w, matched, PauseEdit(true), Pausing, true).world, matched, i);
    PauseUndone(w.stores[matched[i]].mem);
  }

  /** Abort after the patch loop got through. */
  lemma AbortAfterPatch(bad: set<nat>, w2: World, matched: seq<Key>, entries: seq<Entry>, old_: string, new_: string,
                        i: nat)
    requires Has(w2, matched) && Distinct(matched) && i < |matched|
    requires var r := AfterPatch(bad, w2, matched, entries, old_, new_);
             !r.outcome.Completed? && forall j :: j >= r.cleanup ==> j !in bad
    ensures var r := AfterPatch(bad, w2, matched, entries, old_, new_);
            && matched[i] in r.world.stores
            && r.world.stores[matched[i]].server == WithPause(WithEndpoint(w2.stores[matched[i]].mem, old_), false)
  {
    ConnPassCount(bad, w2, entries, new_, Connecting, true);
    var updated := ConnPass(bad, w2, entries, new_, Connecting, true);
    assert matched == matched[..|matched|];
    RollbackAt(bad, updated.world, matched, old_, matched, entries[..updated.done], i);
  }

  /** Abort after the pause loop got through, for a store `p` that the two endpoint edits bring back. */
  lemma AbortAfterPause(bad: set<nat>, w1: World, matched: seq<Key>, read: bool, entries: seq<Entry>,
                        old_: string, new_: string, i: nat, p: Store)
    requires Has(w1, matched) && Distinct(matched) && i < |matched| && w1.stores[matched[i]] == Cell(p, p)
    requires WithEndpoint(WithEndpoint(p, new_), old_) == p
    requires var r := AfterPause(bad, w1, matched, read, entries, old_, new_);
             !r.outcome.Completed? && forall j :: j >= r.cleanup ==> j !in bad
    ensures var r := AfterPause(bad, w1, matched, read, entries, old_, new_);
            && matched[i] in r.world.stores
            && r.world.stores[matched[i]].server ==
                WithPause(if r.outcome == PatchFailed(i) then WithEndpoint(p, new_) else p, false)
  {
    PatchCell(bad, w1, matched, new_, i, p);
    StorePassCount(bad, w1, matched, EndpointEdit(new_), Patching, true);
    var patched := StorePass(bad, w1, matched, EndpointEdit(new_), Patching, true);
    if patched.done < |matched| {
      RollbackAt(bad, patched.world, matched[..patched.done], old_, matched, [], i);
    } else if !read {
      assert matched == matched[..|matched|];
      RollbackAt(bad, patched.world, matched, old_, matched, [], i);
    } else {
      AbortAfterPatch(bad, patched.world, matched, entries, old_, new_, i);
    }
  }

  /**
   Saga abort, stores: wherever the run fails, if every clean-up write succeeds then each matched
   store is back as it was and unpaused, except the one whose patch write failed.  That one still
   held the new endpoint in memory, so removing its pause writes it: it ends on the new endpoint.
   */
  lemma AbortRestoresStores(bad: set<nat>, w: World, matched: seq<Key>, read: bool, entries: seq<Entry>,
                            old_: string, new_: string, i: nat)
    requires Start(w, matched, entries, old_) && i < |matched|
    requires var r := RunUpdate(bad, w, matched, true, read, entries, old_, new_);
             !r.outcome.Completed? && forall j :: j >= r.cleanup ==> j !in bad
    ensures var r := RunUpdate(bad, w, matched, true, read, entries, old_, new_);
            var st := w.stores[matched[i]].server;
            && matched[i] in r.world.stores
            && r.world.stores[matched[i]].server ==
                 if r.outcome == PatchFailed(i) then Restored(WithEndpoint(st, new_)) else Restored(st)
  {
    var st := w.stores[matched[i]].server;
    StorePassCount(bad, w, matched, PauseEdit(true), Pausing, true);
    var paused := StorePass(bad, w, matched, PauseEdit(true), Pausing, true);
    if paused.done < |matched| {
      PauseAbort(bad, w, matched, i);
    } else {
      var p := WithPause(st, true);
      PausedAt(bad, w, matched, i);
      EditsCommute(st, new_, true);
      EndpointUndone(p, old_, new_);
      AbortAfterPause(bad, paused.world, matched, read, entries, old_, new_, i, p);
      PauseUndone(st);
      PauseUndone(WithEndpoint(st, new_));
    }
  }

  /** Saga abort, core: if every clean-up write succeeds, every connection has its old endpoint and type. */
  lemma AbortRestoresCore(bad: set<nat>, w: World, matched: seq<Key>, read: bool, entries: seq<Entry>,
                          old_: string, new_: string)
    requires Start(w, matched, entries, old_)
    requires var r := RunUpdate(bad, w, matched, true, read, entries, old_, new_);
             !r.outcome.Completed? && forall j :: j >= r.cleanup ==> j !in bad
    ensures RunUpdate(bad, w, matched, true, read, entries, old_, new_).world.core == w.core
  {
    var paused := StorePass(bad, w, matched, PauseEdit(true), Pausing, true);
    StorePassCount(bad, w, matched, PauseEdit(true), Pausing, true);
    if matched == [] {
    } else if paused.done < |matched| {
      StorePassCount(bad, paused.world, matched, PauseEdit(false), Unpausing, false);
    } else {
      var patched := StorePass(bad, paused.world, matched, EndpointEdit(new_), Patching, true);
      StorePassCount(bad, paused.world, matched, EndpointEdit(new_), Patching, true);
      if patched.done < |matched| || !read {
        var done := matched[..patched.done];
        assert patched.done == |matched| ==> done == matched;
        forall name: string ensures SameConn(w.core, Rollback(bad, patched.world, done, old_, matched, []).core, name) {
          RollbackOther(bad, patched.world, done, old_, matched, [], name);
        }
        SameCore(w.core, Rollback(bad, patched.world, done, old_, matched, []).core);
      } else {
        ConnectAbortCore(bad, patched.world, matched, entries, old_, new_);
      }
    }
  }

  lemma SameCore(core: map<string, Connection>, core': map<string, Connection>)
    requires forall name :: SameConn(core, core', name)
    ensures core' == core
  {
    assert forall name :: name in core ==> SameConn(core, core', name);
    assert forall name :: name in core' ==> SameConn(core, core', name);
  }

  /** A connection loop that failed and was rolled back: an entry it had updated. */
  lemma ConnectAbortUpdated(bad: set<nat>, w: World, matched: seq<Key>, entries: seq<Entry>, old_: string, new_: string,
                            i: nat)
    requires Has(w, matched) && ListsConnections(entries, w.core, old_)
    requires var r := ConnPass(bad, w, entries, new_, Connecting, true);
             i < r.done < |entries| && r.world.stores == w.stores && forall j :: j >= r.world.writes ==> j !in bad
    ensures var r := ConnPass(bad, w, entries, new_, Connecting, true);
            SameConn(w.core, Rollback(bad, r.world, matched, old_, matched, entries[..r.done]).core, entries[i].name)
  {
    var r := ConnPass(bad, w, entries, new_, Connecting, true);
    ConnPassAt(bad, w, entries, new_, Connecting, true, i);
    assert entries[..r.done][i] == entries[i];
    RollbackUpdated(bad, r.world, matched, old_, matched, entries[..r.done], i);
  }

  /** The same for an entry it had not come to, or failed at. */
  lemma ConnectAbortAhead(bad: set<nat>, w: World, matched: seq<Key>, entries: seq<Entry>, old_: string, new_: string,
                          i: nat)
    requires Has(w, matched) && ListsConnections(entries, w.core, old_)
    requires var r := ConnPass(bad, w, entries, new_, Connecting, true);
             r.done <= i < |entries| && r.world.stores == w.stores
    ensures var r := ConnPass(bad, w, entries, new_, Connecting, true);
            SameConn(w.core, Rollback(bad, r.world, matched, old_, matched, entries[..r.done]).core, entries[i].name)
  {
    var r := ConnPass(bad, w, entries, new_, Connecting, true);
    ConnPassCount(bad, w, entries, new_, Connecting, true);
    ConnPassAt(bad, w, entries, new_, Connecting, true, i);
    assert !Names(entries[..r.done], entries[i].name);
    RollbackOther(bad, r.world, matched, old_, matched, entries[..r.done], entries[i].name);
  }

  /** The same for a connection that was not on the old endpoint. */
  lemma ConnectAbortOther(bad: set<nat>, w: World, matched: seq<Key>, entries: seq<Entry>, old_: string, new_: string,
                          name: string)
    requires Has(w, matched) && !Names(entries, name)
    requires ConnPass(bad, w, entries, new_, Connecting, true).world.stores == w.stores
    requires ConnPass(bad, w, entries, new_, Connecting, true).done <= |entries|
    ensures var r := ConnPass(bad, w, entries, new_, Connecting, true);
            SameConn(w.core, Rollback(bad, r.world, matched, old_, matched, entries[..r.done]).core, name)
  {
    var r := ConnPass(bad, w, entries, new_, Connecting, true);
    ConnPassFrame(bad, w, entries, new_, Connecting, true, name);
    assert !Names(entries[..r.done], name);
    RollbackOther(bad, r.world, matched, old_, matched, entries[..r.done], name);
  }

  lemma ConnectAbortCore(bad: set<nat>, w: World, matched: seq<Key>, entries: seq<Entry>, old_: string, new_: string)
    requires Has(w, matched) && ListsConnections(entries, w.core, old_)
    requires var r := ConnPass(bad, w, entries, new_, Connecting, true);
             r.done < |entries| && forall j :: j >= r.world.writes ==> j !in bad
    ensures var r := ConnPass(bad, w, entries, new_, Connecting, true);
            && r.world.stores == w.stores
            && Rollback(bad, r.world, matched, old_, matched, entries[..r.done]).core == w.core
  {
    ConnPassCount(bad, w, entries, new_, Connecting, true);
    var r := ConnPass(bad, w, entries, new_, Connecting, true);
    var core' := Rollback(bad, r.world, matched, old_, matched, entries[..r.done]).core;
    forall name: string ensures SameConn(w.core, core', name) {
      if Names(entries, name) {
        var i :| 0 <= i < |entries| && entries[i].name == name;
        if i < r.done {
          ConnectAbortUpdated(bad, w, matched, entries, old_, new_, i);
        } else {
          ConnectAbortAhead(bad, w, matched, entries, old_, new_, i);
        }
      } else {
        ConnectAbortOther(bad, w, matched, entries, old_, new_, name);
      }
    }
    SameCore(w.core, core');
  }
}
