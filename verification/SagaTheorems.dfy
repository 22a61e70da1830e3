/**
 What the whole `connection update` command guarantees beyond an abort: when an abort really
 restores, what a finished run leaves, that no write outside the matched stores happens, that the
 stores are paused throughout, and that even failing clean-up writes never corrupt a store.
 */
module SagaTheorems {
  import opened Wrappers
  import opened Saga
  import opened SagaRun

  // ---------------------------------------------------------------- exactly when an abort restores

  lemma EndpointRestoredIff(st: Store, old_: string, new_: string)
    requires EndpointOf(st) == Some(old_)
    ensures Restored(WithEndpoint(st, new_)) == Restored(st) <==> old_ == new_
  {
    if old_ != new_ {
      assert EndpointOf(Restored(WithEndpoint(st, new_))) == Some(new_);
      assert EndpointOf(Restored(st)) == Some(old_);
    }
  }

  /** None of the writes numbered `from` up to `to` fails. */
  predicate Clean(bad: set<nat>, from: nat, to: nat) {
    forall j :: from <= j < to ==> j !in bad
  }

  /**
   Of `n` pause writes and then `n` patch writes, counted from `first`, the first to fail is the
   patch write of store `i`.
   */
  predicate FirstFailureIsPatch(bad: set<nat>, first: nat, n: nat, i: nat) {
    first + n + i in bad && Clean(bad, first, first + n + i)
  }

  /** A validated run either fails while pausing or is what comes after the pause. */
  lemma RunCases(bad: set<nat>, w: World, matched: seq<Key>, read: bool, entries: seq<Entry>, old_: string,
                 new_: string)
    requires Has(w, matched) && matched != []
    ensures var paused := StorePass(bad, w, matched, PauseEdit(true), Pausing, true);
            var r := RunUpdate(bad, w, matched, true, read, entries, old_, new_);
            && Has(paused.world, matched)
            && (if paused.done < |matched| then r.outcome == PauseFailed
                else r == AfterPause(bad, paused.world, matched, read, entries, old_, new_))
  {
    StorePassCount(bad, w, matched, PauseEdit(true), Pausing, true);
  }

  /** How far a loop that stops at failures gets, and where its writes end if it gets through. */
  lemma StopsAt(bad: set<nat>, w: World, keys: seq<Key>, edit: Store -> Store, kind: Kind)
    requires Has(w, keys)
    ensures var r := StorePass(bad, w, keys, edit, kind, true);
            && r.done <= |keys| && Clean(bad, w.writes, w.writes + r.done)
            && (if r.done < |keys| then w.writes + r.done in bad else r.world.writes == w.writes + |keys|)
  {
    StorePassCount(bad, w, keys, edit, kind, true);
  }

  lemma AfterPauseFailsIff(bad: set<nat>, w1: World, matched: seq<Key>, read: bool, entries: seq<Entry>,
                           old_: string, new_: string, i: nat)
    requires Has(w1, matched) && i < |matched|
    ensures AfterPause(bad, w1, matched, read, entries, old_, new_).outcome == PatchFailed(i) <==>
            w1.writes + i in bad && Clean(bad, w1.writes, w1.writes + i)
  {
    StopsAt(bad, w1, matched, EndpointEdit(new_), Patching);
  }

  lemma JoinLoops(bad: set<nat>, first: nat, n: nat, i: nat, done: nat, fails: bool)
    requires done <= n && Clean(bad, first, first + done) && (done < n ==> first + done in bad)
    requires fails <==> done == n && first + n + i in bad && Clean(bad, first + n, first + n + i)
    ensures fails <==> FirstFailureIsPatch(bad, first, n, i)
  {
  }

  /** A run fails at the patch of store `i` exactly when that write is the first of all writes to fail. */
  lemma PatchFailedIff(bad: set<nat>, w: World, matched: seq<Key>, read: bool, entries: seq<Entry>,
                       old_: string, new_: string, i: nat)
    requires Has(w, matched) && i < |matched|
    ensures RunUpdate(bad, w, matched, true, read, entries, old_, new_).outcome == PatchFailed(i) <==>
            FirstFailureIsPatch(bad, w.writes, |matched|, i)
  {
    var paused := StorePass(bad, w, matched, PauseEdit(true), Pausing, true);
    RunCases(bad, w, matched, read, entries, old_, new_);
    StopsAt(bad, w, matched, PauseEdit(true), Pausing);
    if paused.done == |matched| {
      AfterPauseFailsIff(bad, paused.world, matched, read, entries, old_, new_, i);
    }
    JoinLoops(bad, w.writes, |matched|, i, paused.done,
              RunUpdate(bad, w, matched, true, read, entries, old_, new_).outcome == PatchFailed(i));
  }

  lemma RestoredIsSame(st: Store)
    ensures Restored(st) == st <==> PAUSE_RECONCILE !in st.annotations
  {
    if PAUSE_RECONCILE !in st.annotations { assert st.annotations - {PAUSE_RECONCILE} == st.annotations; }
  }

  /**
   After an abort with working clean-up, a store is back on its endpoint and unpaused, with nothing
   else changed, if and only if the first write to fail was not its own patch, or the two endpoints
   are equal.  It is the very store that was there before if besides it was not paused then: a pause
   from before the command is lost.
   */
  lemma AbortRestoresIff(bad: set<nat>, w: World, matched: seq<Key>, read: bool, entries: seq<Entry>,
                         old_: string, new_: string, i: nat)
    requires Start(w, matched, entries, old_) && i < |matched|
    requires var r := RunUpdate(bad, w, matched, true, read, entries, old_, new_);
             !r.outcome.Completed? && forall j :: j >= r.cleanup ==> j !in bad
    ensures var r := RunUpdate(bad, w, matched, true, read, entries, old_, new_);
            && matched[i] in r.world.stores
            && (r.world.stores[matched[i]].server == Restored(w.stores[matched[i]].server)
                <==> !FirstFailureIsPatch(bad, w.writes, |matched|, i) || old_ == new_)
            && (r.world.stores[matched[i]].server == w.stores[matched[i]].server
                <==> && (!FirstFailureIsPatch(bad, w.writes, |matched|, i) || old_ == new_)
                     && PAUSE_RECONCILE !in w.stores[matched[i]].server.annotations)
  {
    AbortRestoresStores(bad, w, matched, read, entries, old_, new_, i);
    PatchFailedIff(bad, w, matched, read, entries, old_, new_, i);
    EndpointRestoredIff(w.stores[matched[i]].server, old_, new_);
    RestoredIsSame(w.stores[matched[i]].server);
  }

  /** The clean-up of a run that failed at a patch starts right after that write. */
  lemma PatchCleanup(bad: set<nat>, w: World, matched: seq<Key>, read: bool, entries: seq<Entry>,
                     old_: string, new_: string, i: nat)
    requires Has(w, matched) && i < |matched|
    requires RunUpdate(bad, w, matched, true, read, entries, old_, new_).outcome == PatchFailed(i)
    ensures RunUpdate(bad, w, matched, true, read, entries, old_, new_).cleanup == w.writes + |matched| + i + 1
  {
    var paused := StorePass(bad, w, matched, PauseEdit(true), Pausing, true);
    StorePassCount(bad, w, matched, PauseEdit(true), Pausing, true);
    StorePassCount(bad, paused.world, matched, EndpointEdit(new_), Patching, true);
  }

  /**
   Stopping before the first write: it happens exactly when nothing matched or the validation failed,
   and then no store, no connection and no write number has changed.
   */
  lemma RefusedChangesNothing(bad: set<nat>, w: World, matched: seq<Key>, validated: bool, read: bool,
                              entries: seq<Entry>, old_: string, new_: string)
    requires Has(w, matched)
    ensures var r := RunUpdate(bad, w, matched, validated, read, entries, old_, new_);
            && (r.outcome.NothingMatched? <==> matched == [])
            && (r.outcome.ValidationFailed? <==> matched != [] && !validated)
            && (matched == [] || !validated ==> r.world == w)
  {
    if matched != [] && validated { RunCases(bad, w, matched, read, entries, old_, new_); }
  }

  /** How a validated run ends, by the first of its writes to fail: pauses, then patches, then connections. */
  lemma OutcomeIff(bad: set<nat>, w: World, matched: seq<Key>, read: bool, entries: seq<Entry>,
                   old_: string, new_: string)
    requires Has(w, matched) && matched != []
    ensures var o := RunUpdate(bad, w, matched, true, read, entries, old_, new_).outcome;
            var paused := w.writes + |matched|;
            var patched := paused + |matched|;
            && (o.PauseFailed? <==> !Clean(bad, w.writes, paused))
            && (o.PatchFailed? <==> Clean(bad, w.writes, paused) && !Clean(bad, paused, patched))
            && (o.ReadFailed? <==> Clean(bad, w.writes, patched) && !read)
            && (o.ConnectFailed? <==>
                  Clean(bad, w.writes, patched) && read && !Clean(bad, patched, patched + |entries|))
            && (o.Completed? <==> Clean(bad, w.writes, patched + |entries|) && read)
  {
    RunCases(bad, w, matched, read, entries, old_, new_);
    StopsAt(bad, w, matched, PauseEdit(true), Pausing);
    var w1 := StorePass(bad, w, matched, PauseEdit(true), Pausing, true);
    if w1.done == |matched| {
      AfterPauseOutcome(bad, w1.world, matched, read, entries, old_, new_);
      CleanJoin(bad, w.writes, w.writes + |matched|, w.writes + 2 * |matched|);
      CleanJoin(bad, w.writes, w.writes + |matched|, w.writes + 2 * |matched| + |entries|);
    }
  }

  lemma CleanJoin(bad: set<nat>, from: nat, mid: nat, to: nat)
    requires from <= mid <= to
    ensures Clean(bad, from, to) <==> Clean(bad, from, mid) && Clean(bad, mid, to)
  {
  }

  lemma AfterPauseOutcome(bad: set<nat>, w1: World, matched: seq<Key>, read: bool, entries: seq<Entry>,
                          old_: string, new_: string)
    requires Has(w1, matched)
    ensures var o := AfterPause(bad, w1, matched, read, entries, old_, new_).outcome;
            var patched := w1.writes + |matched|;
            && (o.PatchFailed? <==> !Clean(bad, w1.writes, patched))
            && (o.ReadFailed? <==> Clean(bad, w1.writes, patched) && !read)
            && (o.ConnectFailed? <==>
                  Clean(bad, w1.writes, patched) && read && !Clean(bad, patched, patched + |entries|))
            && (o.Completed? <==> Clean(bad, w1.writes, patched + |entries|) && read)
            && !o.PauseFailed?
  {
    StopsAt(bad, w1, matched, EndpointEdit(new_), Patching);
    var w2 := StorePass(bad, w1, matched, EndpointEdit(new_), Patching, true);
    CleanJoin(bad, w1.writes, w1.writes + |matched|, w1.writes + |matched| + |entries|);
    if w2.done == |matched| {
      ConnPassCount(bad, w2.world, entries, new_, Connecting, true);
    }
  }

  /**
   From every start, one failed patch write and nothing else leaves its store on the new endpoint
   after the rollback.
   */
  lemma OneFailedPatchMoves(w: World, matched: seq<Key>, read: bool, entries: seq<Entry>, old_: string, new_: string,
                            i: nat)
    requires Start(w, matched, entries, old_) && i < |matched|
    ensures var r := RunUpdate({w.writes + |matched| + i}, w, matched, true, read, entries, old_, new_);
            && r.outcome == PatchFailed(i) && matched[i] in r.world.stores
            && EndpointOf(r.world.stores[matched[i]].server) == Some(new_)
  {
    var bad := {w.writes + |matched| + i};
    PatchFailedIff(bad, w, matched, read, entries, old_, new_, i);
    assert FirstFailureIsPatch(bad, w.writes, |matched|, i);
    PatchCleanup(bad, w, matched, read, entries, old_, new_, i);
    AbortRestoresStores(bad, w, matched, read, entries, old_, new_, i);
  }

  /** A world to start from: a single store on the old endpoint. */
  lemma SmallWorld() returns (w: World, matched: seq<Key>)
    ensures Start(w, matched, [], "http://old") && |matched| == 1 && w.writes == 0
  {
    var st := Store(S3Compatible, Some("http://old"), None, map[], "");
    matched := [BackingStore("a")];
    w := World(map[BackingStore("a") := Cell(st, st)], map[], 0, []);
  }

  /** One failing run: the pause write succeeds, the patch write fails, every later write succeeds. */
  lemma FailingRun(new_: string) returns (w: World, matched: seq<Key>, bad: set<nat>)
    ensures Start(w, matched, [], "http://old") && |matched| == 1 && w.writes == 0 && bad == {1}
    ensures var r := RunUpdate(bad, w, matched, true, true, [], "http://old", new_);
            && r.outcome == PatchFailed(0) && matched[0] in r.world.stores
            && EndpointOf(r.world.stores[matched[0]].server) == Some(new_)
  {
    w, matched := SmallWorld();
    bad := {w.writes + |matched| + 0};
    assert bad == {1};
    OneFailedPatchMoves(w, matched, true, [], "http://old", new_, 0);
  }

  // ---------------------------------------------------------------- unmatched stores

  lemma RollbackFrame(bad: set<nat>, w: World, patched: seq<Key>, old_: string, all: seq<Key>, updated: seq<Entry>,
                      k: Key)
    requires Has(w, patched) && Has(w, all) && k !in patched && k !in all && k in w.stores
    ensures var w' := Rollback(bad, w, patched, old_, all, updated);
            k in w'.stores && w'.stores[k] == w.stores[k]
  {
    StorePassCount(bad, w, patched, EndpointEdit(old_), Reverting, false);
    StorePassFrame(bad, w, patched, EndpointEdit(old_), Reverting, false, k);
    var w1 := StorePass(bad, w, patched, EndpointEdit(old_), Reverting, false).world;
    ConnPassCount(bad, w1, updated, old_, Reverting, false);
    var w2 := ConnPass(bad, w1, updated, old_, Reverting, false).world;
    StorePassFrame(bad, w2, all, PauseEdit(false), Unpausing, false, k);
  }

  /** Whatever fails, a store that did not match is exactly as it was. */
  lemma UnmatchedUntouched(bad: set<nat>, w: World, matched: seq<Key>, validated: bool, read: bool, entries: seq<Entry>,
                           old_: string, new_: string, k: Key)
    requires Has(w, matched) && k in w.stores && k !in matched
    ensures var r := RunUpdate(bad, w, matched, validated, read, entries, old_, new_);
            k in r.world.stores && r.world.stores[k] == w.stores[k]
  {
    if matched != [] && validated {
      StorePassCount(bad, w, matched, PauseEdit(true), Pausing, true);
      StorePassFrame(bad, w, matched, PauseEdit(true), Pausing, true, k);
      var paused := StorePass(bad, w, matched, PauseEdit(true), Pausing, true);
      if paused.done < |matched| {
        StorePassFrame(bad, paused.world, matched, PauseEdit(false), Unpausing, false, k);
      } else {
        UnmatchedAfterPause(bad, paused.world, matched, read, entries, old_, new_, k);
      }
    }
  }

  lemma UnmatchedAfterPause(bad: set<nat>, w1: World, matched: seq<Key>, read: bool, entries: seq<Entry>,
                            old_: string, new_: string, k: Key)
    requires Has(w1, matched) && k in w1.stores && k !in matched
    ensures var r := AfterPause(bad, w1, matched, read, entries, old_, new_);
            k in r.world.stores && r.world.stores[k] == w1.stores[k]
  {
    StorePassCount(bad, w1, matched, EndpointEdit(new_), Patching, true);
    StorePassFrame(bad, w1, matched, EndpointEdit(new_), Patching, true, k);
    var patched := StorePass(bad, w1, matched, EndpointEdit(new_), Patching, true);
    if patched.done < |matched| {
      RollbackFrame(bad, patched.world, matched[..patched.done], old_, matched, [], k);
    } else if !read {
      RollbackFrame(bad, patched.world, matched, old_, matched, [], k);
    } else {
      ConnPassCount(bad, patched.world, entries, new_, Connecting, true);
      var updated := ConnPass(bad, patched.world, entries, new_, Connecting, true);
      if updated.done < |entries| {
        RollbackFrame(bad, updated.world, matched, old_, matched, entries[..updated.done], k);
      } else {
        StorePassFrame(bad, updated.world, matched, PauseEdit(false), Unpausing, false, k);
      }
    }
  }

  // ---------------------------------------------------------------- a finished run

  /** One store through the end of a finished run, from the moment it is patched. */
  lemma CommitAfterPatch(bad: set<nat>, w2: World, matched: seq<Key>, entries: seq<Entry>, old_: string, new_: string,
                         i: nat)
    requires Has(w2, matched) && Distinct(matched) && i < |matched|
    requires AfterPatch(bad, w2, matched, entries, old_, new_).outcome.Completed?
    ensures var r := AfterPatch(bad, w2, matched, entries, old_, new_);
            var c := w2.stores[matched[i]];
            && matched[i] in r.world.stores
            && r.world.stores[matched[i]].server == if r.cleanup + i in bad then c.server else WithPause(c.mem, false)
  {
    ConnPassCount(bad, w2, entries, new_, Connecting, true);
    UnpausedAt(bad, ConnPass(bad, w2, entries, new_, Connecting, true).world, matched, i);
  }

  /** One store through a finished run, from the moment it is paused. */
  lemma CommitAfterPause(bad: set<nat>, w1: World, matched: seq<Key>, entries: seq<Entry>, old_: string, new_: string,
                         i: nat, st: Store)
    requires Has(w1, matched) && Distinct(matched) && i < |matched| && w1.stores[matched[i]] == Cell(st, st)
    requires AfterPause(bad, w1, matched, true, entries, old_, new_).outcome.Completed?
    ensures var r := AfterPause(bad, w1, matched, true, entries, old_, new_);
            && matched[i] in r.world.stores
            && r.world.stores[matched[i]].server ==
                 if r.cleanup + i in bad then WithEndpoint(st, new_) else WithPause(WithEndpoint(st, new_), false)
  {
    StorePassCount(bad, w1, matched, EndpointEdit(new_), Patching, true);
    PatchCell(bad, w1, matched, new_, i, st);
    CommitAfterPatch(bad, StorePass(bad, w1, matched, EndpointEdit(new_), Patching, true).world, matched, entries,
        old_, new_, i);
  }

  lemma CommitFromPaused(bad: set<nat>, w1: World, matched: seq<Key>, entries: seq<Entry>, old_: string, new_: string,
                         i: nat, st: Store)
    requires Has(w1, matched) && Distinct(matched) && i < |matched|
    requires w1.stores[matched[i]] == Cell(WithPause(st, true), WithPause(st, true))
    requires AfterPause(bad, w1, matched, true, entries, old_, new_).outcome.Completed?
    ensures var r := AfterPause(bad, w1, matched, true, entries, old_, new_);
            && matched[i] in r.world.stores
            && r.world.stores[matched[i]].server == WithPause(WithEndpoint(st, new_), r.cleanup + i in bad)
  {
    CommitAfterPause(bad, w1, matched, entries, old_, new_, i, WithPause(st, true));
    EditsCommute(st, new_, true);
    PauseUndone(WithEndpoint(st, new_));
  }

  /**
   Saga commit, stores: a run that finishes leaves every matched store on the new endpoint, changed
   in nothing but that and the pause annotation, which is gone exactly when its last write succeeded.
   */
  lemma CommitStores(bad: set<nat>, w: World, matched: seq<Key>, entries: seq<Entry>, old_: string, new_: string,
                     i: nat)
    requires Start(w, matched, entries, old_) && i < |matched|
    requires RunUpdate(bad, w, matched, true, true, entries, old_, new_).outcome.Completed?
    ensures var r := RunUpdate(bad, w, matched, true, true, entries, old_, new_);
            && matched[i] in r.world.stores
            && r.world.stores[matched[i]].server ==
                 WithPause(WithEndpoint(w.stores[matched[i]].server, new_), r.cleanup + i in bad)
  {
    FinishedStore(bad, w, matched, entries, old_, new_, i, w.stores[matched[i]].server);
  }

  /** A finished run got through its pause loop. */
  lemma FinishedPauses(bad: set<nat>, w: World, matched: seq<Key>, entries: seq<Entry>, old_: string, new_: string)
    requires Has(w, matched)
    requires RunUpdate(bad, w, matched, true, true, entries, old_, new_).outcome.Completed?
    ensures var paused := StorePass(bad, w, matched, PauseEdit(true), Pausing, true);
            && matched != [] && paused.done == |matched| && Has(paused.world, matched)
            && RunUpdate(bad, w, matched, true, true, entries, old_, new_) ==
               AfterPause(bad, paused.world, matched, true, entries, old_, new_)
  {
    if matched != [] {
      RunCases(bad, w, matched, true, entries, old_, new_);
      StopsAt(bad, w, matched, PauseEdit(true), Pausing);
    }
  }

  lemma FinishedStore(bad: set<nat>, w: World, matched: seq<Key>, entries: seq<Entry>, old_: string, new_: string,
                      i: nat, st: Store)
    requires Has(w, matched) && Distinct(matched) && i < |matched| && w.stores[matched[i]] == Cell(st, st)
    requires RunUpdate(bad, w, matched, true, true, entries, old_, new_).outcome.Completed?
    ensures var r := RunUpdate(bad, w, matched, true, true, entries, old_, new_);
            && matched[i] in r.world.stores
            && r.world.stores[matched[i]].server == WithPause(WithEndpoint(st, new_), r.cleanup + i in bad)
  {
    FinishedPauses(bad, w, matched, entries, old_, new_);
    PausedAt(bad, w, matched, i);
    var w1 := StorePass(bad, w, matched, PauseEdit(true), Pausing, true).world;
    CommitFromPaused(bad, w1, matched, entries, old_, new_, i, st);
  }

  /** The core after a finished run: every connection on the old endpoint moved, every other as it was. */
  ghost predicate Moved(core: map<string, Connection>, core': map<string, Connection>, old_: string, new_: string,
                        name: string) {
    && (name in core' <==> name in core)
    && (name in core ==>
          core'[name] == if core[name].endpoint == old_ then Connection(new_, core[name].endpointType) else core[name])
  }

  lemma ConnPassMoves(bad: set<nat>, w: World, entries: seq<Entry>, old_: string, new_: string, name: string)
    requires ListsConnections(entries, w.core, old_)
    requires ConnPass(bad, w, entries, new_, Connecting, true).done == |entries|
    ensures Moved(w.core, ConnPass(bad, w, entries, new_, Connecting, true).world.core, old_, new_, name)
  {
    if Names(entries, name) {
      var i :| 0 <= i < |entries| && entries[i].name == name;
      ConnPassCount(bad, w, entries, new_, Connecting, true);
      assert w.writes + i !in bad;
      ConnPassAt(bad, w, entries, new_, Connecting, true, i);
    } else {
      ConnPassFrame(bad, w, entries, new_, Connecting, true, name);
    }
  }

  /**
   Saga commit, core: a run that finishes moves exactly the connections that had the old endpoint,
   keeping their types.
   */
  lemma CommitCore(bad: set<nat>, w: World, matched: seq<Key>, entries: seq<Entry>, old_: string, new_: string,
                   name: string)
    requires Start(w, matched, entries, old_)
    requires RunUpdate(bad, w, matched, true, true, entries, old_, new_).outcome.Completed?
    ensures Moved(w.core, RunUpdate(bad, w, matched, true, true, entries, old_, new_).world.core, old_, new_, name)
  {
    var paused := StorePass(bad, w, matched, PauseEdit(true), Pausing, true);
    StorePassCount(bad, w, matched, PauseEdit(true), Pausing, true);
    var patched := StorePass(bad, paused.world, matched, EndpointEdit(new_), Patching, true);
    StorePassCount(bad, paused.world, matched, EndpointEdit(new_), Patching, true);
    ConnPassCount(bad, patched.world, entries, new_, Connecting, true);
    var updated := ConnPass(bad, patched.world, entries, new_, Connecting, true);
    ConnPassMoves(bad, patched.world, entries, old_, new_, name);
    StorePassCount(bad, updated.world, matched, PauseEdit(false), Unpausing, false);
  }

  // ---------------------------------------------------------------- from the listing to the end

  /** No store on the server and no connection of the core is on `endpoint`. */
  predicate NoneOn(w: World, endpoint: string) {
    && (forall k :: k in w.stores ==> EndpointOf(w.stores[k].server) != Some(endpoint))
    && (forall name :: name in w.core ==> w.core[name].endpoint != endpoint)
  }

  /** What was listed establishes what the run starts from. */
  lemma DiscoveryStarts(w: World, listed: seq<Key>, entries: seq<Entry>, old_: string)
    requires Listed(w) && Distinct(listed) && Has(w, listed) && ListsConnections(entries, w.core, old_)
    ensures Start(w, Matching(w.stores, listed, old_), entries, old_)
  {
    MatchingExact(w.stores, listed, old_);
  }

  /** A matched store of a finished run has left the old endpoint. */
  lemma MatchedLeaves(bad: set<nat>, w: World, matched: seq<Key>, entries: seq<Entry>, old_: string, new_: string,
                      k: Key)
    requires Start(w, matched, entries, old_) && old_ != new_ && k in matched
    requires RunUpdate(bad, w, matched, true, true, entries, old_, new_).outcome.Completed?
    ensures var w' := RunUpdate(bad, w, matched, true, true, entries, old_, new_).world;
            k in w'.stores && EndpointOf(w'.stores[k].server) != Some(old_)
  {
    var i :| 0 <= i < |matched| && matched[i] == k;
    CommitStores(bad, w, matched, entries, old_, new_, i);
    EditsCommute(WithEndpoint(w.stores[k].server, new_), new_,
        RunUpdate(bad, w, matched, true, true, entries, old_, new_).cleanup + i in bad);
  }

  /** A run never adds or drops a store. */
  lemma SameStores(bad: set<nat>, w: World, matched: seq<Key>, entries: seq<Entry>, old_: string, new_: string)
    requires Has(w, matched)
    requires RunUpdate(bad, w, matched, true, true, entries, old_, new_).outcome.Completed?
    ensures RunUpdate(bad, w, matched, true, true, entries, old_, new_).world.stores.Keys == w.stores.Keys
  {
    StorePassCount(bad, w, matched, PauseEdit(true), Pausing, true);
    var paused := StorePass(bad, w, matched, PauseEdit(true), Pausing, true);
    StorePassCount(bad, paused.world, matched, EndpointEdit(new_), Patching, true);
    var patched := StorePass(bad, paused.world, matched, EndpointEdit(new_), Patching, true);
    ConnPassCount(bad, patched.world, entries, new_, Connecting, true);
    var updated := ConnPass(bad, patched.world, entries, new_, Connecting, true);
    StorePassCount(bad, updated.world, matched, PauseEdit(false), Unpausing, false);
  }

  /**
   End to end: when the listing covers all stores, a run that finishes leaves no store and no
   connection on the old endpoint.
   */
  lemma NothingLeftOnOld(bad: set<nat>, w: World, listed: seq<Key>, entries: seq<Entry>, old_: string, new_: string)
    requires Listed(w) && Distinct(listed) && Has(w, listed) && (forall k :: k in w.stores ==> k in listed)
    requires ListsConnections(entries, w.core, old_) && old_ != new_
    requires Has(w, Matching(w.stores, listed, old_))
    requires RunUpdate(bad, w, Matching(w.stores, listed, old_), true, true, entries, old_, new_).outcome.Completed?
    ensures NoneOn(RunUpdate(bad, w, Matching(w.stores, listed, old_), true, true, entries, old_, new_).world, old_)
  {
    var matched := Matching(w.stores, listed, old_);
    var w' := RunUpdate(bad, w, matched, true, true, entries, old_, new_).world;
    SameStores(bad, w, matched, entries, old_, new_);
    DiscoveryStarts(w, listed, entries, old_);
    MatchingExact(w.stores, listed, old_);
    forall k | k in w'.stores ensures EndpointOf(w'.stores[k].server) != Some(old_) {
      if k in matched {
        MatchedLeaves(bad, w, matched, entries, old_, new_, k);
      } else {
        UnmatchedUntouched(bad, w, matched, true, true, entries, old_, new_, k);
      }
    }
    forall name | name in w'.core ensures w'.core[name].endpoint != old_ {
      CommitCore(bad, w, matched, entries, old_, new_, name);
    }
  }

  // ---------------------------------------------------------------- paused throughout

  function Rank(kind: Kind): nat {
    match kind
    case Pausing => 0
    case Patching => 1
    case Connecting => 2
    case Reverting => 3
    case Unpausing => 4
  }

  /** A write that must find every matched store paused does. */
  predicate Guarded(e: Event, matched: seq<Key>) {
    0 < Rank(e.kind) < 4 ==> AllPaused(e.before, matched)
  }

  /** The writes of `w'` after those of `w` have ranks in `lo..hi` and are guarded. */
  predicate Phased(w: World, w': World, matched: seq<Key>, lo: nat, hi: nat) {
    && |w.log| <= |w'.log| && w'.log[..|w.log|] == w.log
    && (forall j :: |w.log| <= j < |w'.log| ==> lo <= Rank(w'.log[j].kind) <= hi && Guarded(w'.log[j], matched))
  }

  /** Those writes come in the order of their ranks. */
  predicate InOrder(w: World, w': World) {
    forall i, j :: |w.log| <= i < j < |w'.log| ==> Rank(w'.log[i].kind) <= Rank(w'.log[j].kind)
  }

  lemma PhasedThen(a: World, b: World, c: World, matched: seq<Key>, lo: nat, mid: nat, mid': nat, hi: nat)
    requires Phased(a, b, matched, lo, mid) && Phased(b, c, matched, mid', hi) && lo <= mid <= mid' <= hi
    requires (lo == mid || InOrder(a, b)) && (mid' == hi || InOrder(b, c))
    ensures Phased(a, c, matched, lo, hi) && InOrder(a, c)
  {
    assert c.log[..|a.log|] == c.log[..|b.log|][..|a.log|];
    assert forall j :: 0 <= j < |b.log| ==> c.log[j] == c.log[..|b.log|][j];
  }

  /** A loop that only pauses or only unpauses. */
  lemma PauseLoopPhased(bad: set<nat>, w: World, matched: seq<Key>, pause: bool, stop: bool)
    requires Has(w, matched)
    ensures var kind := if pause then Pausing else Unpausing;
            Phased(w, StorePass(bad, w, matched, PauseEdit(pause), kind, stop).world, matched, Rank(kind), Rank(kind))
  {
    StorePassLog(bad, w, matched, PauseEdit(pause), if pause then Pausing else Unpausing, stop);
  }

  /** A loop that writes endpoints into a prefix of the paused stores. */
  lemma EndpointLoopPhased(bad: set<nat>, w: World, keys: seq<Key>, matched: seq<Key>, endpoint: string, kind: Kind,
                           stop: bool)
    requires Has(w, keys) && AllPaused(w.stores, matched)
    ensures var w' := StorePass(bad, w, keys, EndpointEdit(endpoint), kind, stop).world;
            Phased(w, w', matched, Rank(kind), Rank(kind)) && AllPaused(w'.stores, matched)
  {
    StorePassLog(bad, w, keys, EndpointEdit(endpoint), kind, stop);
    StorePassPaused(bad, w, keys, EndpointEdit(endpoint), kind, stop, matched);
  }

  lemma ConnLoopPhased(bad: set<nat>, w: World, entries: seq<Entry>, matched: seq<Key>, endpoint: string, kind: Kind,
                       stop: bool)
    requires AllPaused(w.stores, matched)
    ensures var w' := ConnPass(bad, w, entries, endpoint, kind, stop).world;
            Phased(w, w', matched, Rank(kind), Rank(kind)) && w'.stores == w.stores
  {
    ConnPassLog(bad, w, entries, endpoint, kind, stop);
    ConnPassCount(bad, w, entries, endpoint, kind, stop);
  }

  lemma RollbackPhased(bad: set<nat>, w: World, patched: seq<Key>, old_: string, matched: seq<Key>, updated: seq<Entry>)
    requires Has(w, patched) && Has(w, matched) && AllPaused(w.stores, matched)
    ensures var w' := Rollback(bad, w, patched, old_, matched, updated); Phased(w, w', matched, 3, 4) && InOrder(w, w')
  {
    StorePassCount(bad, w, patched, EndpointEdit(old_), Reverting, false);
    EndpointLoopPhased(bad, w, patched, matched, old_, Reverting, false);
    var w1 := StorePass(bad, w, patched, EndpointEdit(old_), Reverting, false).world;
    ConnLoopPhased(bad, w1, updated, matched, old_, Reverting, false);
    var w2 := ConnPass(bad, w1, updated, old_, Reverting, false).world;
    PauseLoopPhased(bad, w2, matched, false, false);
    var w3 := StorePass(bad, w2, matched, PauseEdit(false), Unpausing, false).world;
    PhasedChain(w, w1, w2, w3, matched);
  }

  lemma PhasedChain(w: World, w1: World, w2: World, w3: World, matched: seq<Key>)
    requires Phased(w, w1, matched, 3, 3) && Phased(w1, w2, matched, 3, 3) && Phased(w2, w3, matched, 4, 4)
    ensures Phased(w, w3, matched, 3, 4) && InOrder(w, w3)
  {
    PhasedThen(w, w1, w2, matched, 3, 3, 3, 3);
    PhasedThen(w, w2, w3, matched, 3, 3, 4, 4);
  }

  lemma AfterPatchPhased(bad: set<nat>, w2: World, matched: seq<Key>, entries: seq<Entry>, old_: string, new_: string)
    requires Has(w2, matched) && AllPaused(w2.stores, matched)
    ensures var w' := AfterPatch(bad, w2, matched, entries, old_, new_).world;
            Phased(w2, w', matched, 2, 4) && InOrder(w2, w')
  {
    ConnPassCount(bad, w2, entries, new_, Connecting, true);
    ConnLoopPhased(bad, w2, entries, matched, new_, Connecting, true);
    var updated := ConnPass(bad, w2, entries, new_, Connecting, true);
    var end := AfterPatch(bad, w2, matched, entries, old_, new_).world;
    if updated.done < |entries| {
      RollbackPhased(bad, updated.world, matched, old_, matched, entries[..updated.done]);
      PhasedThen(w2, updated.world, end, matched, 2, 2, 3, 4);
    } else {
      PauseLoopPhased(bad, updated.world, matched, false, false);
      PhasedThen(w2, updated.world, end, matched, 2, 2, 4, 4);
    }
  }

  lemma AfterPausePhased(bad: set<nat>, w1: World, matched: seq<Key>, read: bool, entries: seq<Entry>, old_: string,
                         new_: string)
    requires Has(w1, matched) && AllPaused(w1.stores, matched)
    ensures var w' := AfterPause(bad, w1, matched, read, entries, old_, new_).world;
            Phased(w1, w', matched, 1, 4) && InOrder(w1, w')
  {
    StorePassCount(bad, w1, matched, EndpointEdit(new_), Patching, true);
    EndpointLoopPhased(bad, w1, matched, matched, new_, Patching, true);
    var patched := StorePass(bad, w1, matched, EndpointEdit(new_), Patching, true);
    var w2 := patched.world;
    var end := AfterPause(bad, w1, matched, read, entries, old_, new_).world;
    if patched.done < |matched| || !read {
      RollbackPhased(bad, w2, if patched.done < |matched| then matched[..patched.done] else matched, old_, matched, []);
      PhasedThen(w1, w2, end, matched, 1, 1, 3, 4);
    } else {
      AfterPatchPhased(bad, w2, matched, entries, old_, new_);
      PhasedThen(w1, w2, end, matched, 1, 1, 2, 4);
    }
  }

  /**
   Cover: for every pattern of failures the writes come in the order pause, patch, connect, revert,
   unpause, and every patch, connection or revert write happens while all matched stores are paused
   on the server.
   */
  lemma PausedThroughout(bad: set<nat>, w: World, matched: seq<Key>, validated: bool, read: bool, entries: seq<Entry>,
                         old_: string, new_: string)
    requires Has(w, matched) && Distinct(matched)
    ensures var w' := RunUpdate(bad, w, matched, validated, read, entries, old_, new_).world;
            Phased(w, w', matched, 0, 4) && InOrder(w, w')
  {
    if matched != [] && validated {
      StorePassCount(bad, w, matched, PauseEdit(true), Pausing, true);
      PauseLoopPhased(bad, w, matched, true, true);
      var paused := StorePass(bad, w, matched, PauseEdit(true), Pausing, true);
      var end := RunUpdate(bad, w, matched, validated, read, entries, old_, new_).world;
      if paused.done < |matched| {
        PauseLoopPhased(bad, paused.world, matched, false, false);
        PhasedThen(w, paused.world, end, matched, 0, 0, 4, 4);
      } else {
        forall k | k in matched ensures k in paused.world.stores && PausedCell(paused.world.stores[k]) {
          var i :| 0 <= i < |matched| && matched[i] == k;
          PausedAt(bad, w, matched, i);
        }
        AfterPausePhased(bad, paused.world, matched, read, entries, old_, new_);
        PhasedThen(w, paused.world, end, matched, 0, 0, 1, 4);
      }
    }
  }

  // ---------------------------------------------------------------- nothing is ever corrupted

  /** `st` with its endpoint and its pause annotation blanked out: what the command must never change. */
  function Skeleton(st: Store): Store {
    WithPause(WithEndpoint(st, ""), false)
  }

  /** A version of `st` that is on one of the two endpoints and otherwise differs at most in the pause annotation. */
  predicate OneOf(x: Store, st: Store, old_: string, new_: string) {
    Skeleton(x) == Skeleton(st) && (EndpointOf(x) == Some(old_) || EndpointOf(x) == Some(new_))
  }

  predicate Sound(c: Cell, st: Store, old_: string, new_: string) {
    OneOf(c.server, st, old_, new_) && OneOf(c.mem, st, old_, new_)
  }

  lemma EditsSound(x: Store, st: Store, old_: string, new_: string)
    requires OneOf(x, st, old_, new_)
    ensures OneOf(WithPause(x, true), st, old_, new_) && OneOf(WithPause(x, false), st, old_, new_)
    ensures OneOf(WithEndpoint(x, old_), st, old_, new_) && OneOf(WithEndpoint(x, new_), st, old_, new_)
  {
    var m := x.annotations;
    assert m[PAUSE_RECONCILE := "true"] - {PAUSE_RECONCILE} == m - {PAUSE_RECONCILE};
    assert m - {PAUSE_RECONCILE} - {PAUSE_RECONCILE} == m - {PAUSE_RECONCILE};
  }

  lemma PassSound(bad: set<nat>, w: World, keys: seq<Key>, edit: Store -> Store, kind: Kind, stop: bool,
                  k: Key, st: Store, old_: string, new_: string)
    requires Has(w, keys) && k in w.stores && Sound(w.stores[k], st, old_, new_)
    requires edit == PauseEdit(true) || edit == PauseEdit(false) || edit == EndpointEdit(old_)
        || edit == EndpointEdit(new_)
    ensures var r := StorePass(bad, w, keys, edit, kind, stop);
            k in r.world.stores && Sound(r.world.stores[k], st, old_, new_)
  {
    var p := (c: Cell) => Sound(c, st, old_, new_);
    forall c, b | p(c) ensures p(CellAfter(c, edit, b)) { EditsSound(c.mem, st, old_, new_); }
    StorePassKeeps(bad, w, keys, edit, kind, stop, k, p);
  }

  lemma RollbackSound(bad: set<nat>, w: World, patched: seq<Key>, matched: seq<Key>, updated: seq<Entry>,
                      k: Key, st: Store, old_: string, new_: string)
    requires Has(w, patched) && Has(w, matched) && k in w.stores && Sound(w.stores[k], st, old_, new_)
    ensures var w' := Rollback(bad, w, patched, old_, matched, updated);
            k in w'.stores && Sound(w'.stores[k], st, old_, new_)
  {
    StorePassCount(bad, w, patched, EndpointEdit(old_), Reverting, false);
    PassSound(bad, w, patched, EndpointEdit(old_), Reverting, false, k, st, old_, new_);
    var w1 := StorePass(bad, w, patched, EndpointEdit(old_), Reverting, false).world;
    ConnPassCount(bad, w1, updated, old_, Reverting, false);
    var w2 := ConnPass(bad, w1, updated, old_, Reverting, false).world;
    PassSound(bad, w2, matched, PauseEdit(false), Unpausing, false, k, st, old_, new_);
  }

  lemma AfterPauseSound(bad: set<nat>, w1: World, matched: seq<Key>, read: bool, entries: seq<Entry>,
                        k: Key, st: Store, old_: string, new_: string)
    requires Has(w1, matched) && k in w1.stores && Sound(w1.stores[k], st, old_, new_)
    ensures var r := AfterPause(bad, w1, matched, read, entries, old_, new_);
            k in r.world.stores && Sound(r.world.stores[k], st, old_, new_)
  {
    StorePassCount(bad, w1, matched, EndpointEdit(new_), Patching, true);
    PassSound(bad, w1, matched, EndpointEdit(new_), Patching, true, k, st, old_, new_);
    var patched := StorePass(bad, w1, matched, EndpointEdit(new_), Patching, true);
    if patched.done < |matched| {
      RollbackSound(bad, patched.world, matched[..patched.done], matched, [], k, st, old_, new_);
    } else if !read {
      RollbackSound(bad, patched.world, matched, matched, [], k, st, old_, new_);
    } else {
      ConnPassCount(bad, patched.world, entries, new_, Connecting, true);
      var updated := ConnPass(bad, patched.world, entries, new_, Connecting, true);
      if updated.done < |entries| {
        RollbackSound(bad, updated.world, matched, matched, entries[..updated.done], k, st, old_, new_);
      } else {
        PassSound(bad, updated.world, matched, PauseEdit(false), Unpausing, false, k, st, old_, new_);
      }
    }
  }

  /**
   Even when clean-up writes fail, a matched store ends on the old or the new endpoint, differing
   from the original in nothing else but the pause annotation.
   */
  lemma NeverCorrupts(bad: set<nat>, w: World, matched: seq<Key>, validated: bool, read: bool, entries: seq<Entry>,
                      old_: string, new_: string, k: Key)
    requires Has(w, matched) && k in w.stores && w.stores[k].mem == w.stores[k].server
    requires EndpointOf(w.stores[k].mem) == Some(old_)
    ensures var r := RunUpdate(bad, w, matched, validated, read, entries, old_, new_);
            k in r.world.stores && OneOf(r.world.stores[k].server, w.stores[k].server, old_, new_)
  {
    var st := w.stores[k].server;
    if matched != [] && validated {
      StorePassCount(bad, w, matched, PauseEdit(true), Pausing, true);
      PassSound(bad, w, matched, PauseEdit(true), Pausing, true, k, st, old_, new_);
      var paused := StorePass(bad, w, matched, PauseEdit(true), Pausing, true);
      if paused.done < |matched| {
        PassSound(bad, paused.world, matched, PauseEdit(false), Unpausing, false, k, st, old_, new_);
      } else {
        AfterPauseSound(bad, paused.world, matched, read, entries, k, st, old_, new_);
      }
    }
  }
}
