/**
 The command in its own form: loops that edit in-memory objects and write them one at a time, each
 proved to compute the pass, rollback or run it is specified by.
 */
module SagaCommand {
  import opened Wrappers
  import opened Saga
  import opened SagaRun
  import opened SagaTheorems

  /** One external connection as the system info lists it under an account. */
  datatype Listing = Listing(name: string, connection: Connection)

  /** findMatchingStores: a filtering loop over the listed stores. */
  method FindMatchingStores(stores: map<Key, Cell>, listed: seq<Key>, endpoint: string) returns (matched: seq<Key>)
    requires (forall k :: k in listed ==> k in stores) && Distinct(listed)
    ensures matched == Matching(stores, listed, endpoint) && Distinct(matched)
    ensures forall k :: k in matched <==> k in listed && EndpointOf(stores[k].mem) == Some(endpoint)
  {
    matched := [];
    for i := 0 to |listed|
      invariant Matching(stores, listed, endpoint) == matched + Matching(stores, listed[i..], endpoint)
    {
      if EndpointOf(stores[listed[i]].mem) == Some(endpoint) {
        matched := matched + [listed[i]];
      }
      assert listed[i..][1..] == listed[i + 1..];
    }
    assert matched == matched + Matching(stores, listed[|listed|..], endpoint);
    MatchingExact(stores, listed, endpoint);
  }

  /**
   The system info agrees with the core: it lists every connection, possibly under several accounts,
   and nothing else.
   */
  ghost predicate Describes(accounts: seq<seq<Listing>>, core: map<string, Connection>) {
    && (forall a, i :: 0 <= a < |accounts| && 0 <= i < |accounts[a]| ==>
          accounts[a][i].name in core && core[accounts[a][i].name] == accounts[a][i].connection)
    && (forall name :: name in core ==>
        exists a, i :: 0 <= a < |accounts| && 0 <= i < |accounts[a]| && accounts[a][i].name == name)
  }

  /** Every listed entry names a connection of the core that is on `endpoint`, each once. */
  ghost predicate Partial(entries: seq<Entry>, core: map<string, Connection>, endpoint: string) {
    && DistinctNames(entries)
    && (forall i :: 0 <= i < |entries| ==>
          entries[i].name in core && core[entries[i].name] == Connection(endpoint, entries[i].endpointType))
  }

  method AddAccount(account: seq<Listing>, endpoint: string, before: seq<Entry>, ghost core: map<string, Connection>)
    returns (entries: seq<Entry>)
    requires Partial(before, core, endpoint)
    requires forall i :: 0 <= i < |account| ==>
        account[i].name in core && core[account[i].name] == account[i].connection
    ensures Partial(entries, core, endpoint) && |before| <= |entries| && entries[..|before|] == before
    ensures forall i :: 0 <= i < |account| && account[i].connection.endpoint == endpoint ==>
        Names(entries, account[i].name)
  {
    entries := before;
    for j := 0 to |account|
      invariant Partial(entries, core, endpoint) && |before| <= |entries| && entries[..|before|] == before
      invariant forall i :: 0 <= i < j && account[i].connection.endpoint == endpoint ==> Names(entries, account[i].name)
    {
      var l := account[j];
      if l.connection.endpoint == endpoint && !Names(entries, l.name) {
        var next := entries + [Entry(l.name, l.connection.endpointType)];
        forall n | Names(entries, n) ensures Names(next, n) {
          var i :| 0 <= i < |entries| && entries[i].name == n;
          assert next[i].name == n;
        }
        assert next[|entries|].name == l.name;
        entries := next;
      }
    }
  }

  /** findConnections: the unique connections on `endpoint` over all accounts. */
  method FindConnections(accounts: seq<seq<Listing>>, endpoint: string, ghost core: map<string, Connection>)
    returns (entries: seq<Entry>)
    requires Describes(accounts, core)
    ensures ListsConnections(entries, core, endpoint)
  {
    entries := [];
    for a := 0 to |accounts|
      invariant Partial(entries, core, endpoint)
      invariant forall b, i ::
          0 <= b < a && 0 <= i < |accounts[b]| && accounts[b][i].connection.endpoint == endpoint
          ==> Names(entries, accounts[b][i].name)
    {
      ghost var was := entries;
      entries := AddAccount(accounts[a], endpoint, entries, core);
      forall n | Names(was, n) ensures Names(entries, n) {
        var i :| 0 <= i < |was| && was[i].name == n;
        assert entries[..|was|][i] == entries[i];
      }
    }
    forall name | name in core && core[name].endpoint == endpoint ensures Names(entries, name) {
      var a, i :| 0 <= a < |accounts| && 0 <= i < |accounts[a]| && accounts[a][i].name == name;
      assert accounts[a][i].connection == core[name];
    }
  }

  /** validateStores: the stores whose check on the new endpoint did not pass; `passes` holds those that do. */
  method ValidateStores(matched: seq<Key>, passes: set<Key>) returns (failed: seq<Key>)
    ensures forall k :: k in failed <==> k in matched && k !in passes
  {
    failed := [];
    for i := 0 to |matched|
      invariant forall k :: k in failed <==> k in matched[..i] && k !in passes
    {
      assert matched[..i + 1] == matched[..i] + [matched[i]];
      if matched[i] !in passes {
        failed := failed + [matched[i]];
      }
    }
    assert matched[..|matched|] == matched;
  }

  /** How the command ends: refused flags, or what RunUpdate comes to. */
  datatype CommandOutcome = BadFlags | Ended(outcome: Outcome)

  class Session {
    /** The numbers of the writes that will fail. */
    const bad: set<nat>
    var stores: map<Key, Cell>
    var core: map<string, Connection>
    var writes: nat
    ghost var log: seq<Event>

    ghost function View(): World
      reads this
    {
      World(stores, core, writes, log)
    }

    constructor (stores: map<Key, Cell>, core: map<string, Connection>, bad: set<nat>)
      ensures View() == World(stores, core, 0, []) && this.bad == bad
    {
      this.bad, this.stores, this.core, this.writes, this.log := bad, stores, core, 0, [];
    }

    /** KubeUpdate of the in-memory object `k`; on failure the server keeps its copy. */
    method KubeUpdate(k: Key, ghost kind: Kind, ghost before: map<Key, Cell>) returns (ok: bool)
      requires k in stores
      modifies this
      ensures ok == (old(writes) !in bad)
      ensures stores == old(stores)[k :=
          Cell(if ok then old(stores[k].mem) else old(stores[k].server), old(stores[k].mem))]
      ensures core == old(core) && writes == old(writes) + 1 && log == old(log) + [Event(kind, before)]
    {
      ok := writes !in bad;
      if ok {
        stores := stores[k := Cell(stores[k].mem, stores[k].mem)];
      }
      writes, log := writes + 1, log + [Event(kind, before)];
      assert stores == old(stores)[k := stores[k]];
    }

    method UpdateConnectionAPI(name: string, c: Connection, ghost kind: Kind) returns (ok: bool)
      modifies this
      ensures View() == UpdateConnection(bad, old(View()), name, c, kind) && ok == (old(writes) !in bad)
    {
      ok := writes !in bad;
      if ok {
        core := core[name := c];
      }
      writes, log := writes + 1, log + [Event(kind, stores)];
    }

    /** One round of setPauseAnnotation. */
    method PauseOne(k: Key, pause: bool) returns (ok: bool)
      requires k in stores
      modifies this
      ensures View() == EditAndWrite(bad, old(View()), k, PauseEdit(pause), if pause then Pausing else Unpausing)
      ensures ok == (old(writes) !in bad)
    {
      ghost var before := stores;
      var cell := stores[k];
      stores := stores[k := cell.(mem := WithPause(cell.mem, pause))];
      ok := KubeUpdate(k, if pause then Pausing else Unpausing, before);
      assert stores == before[k := CellAfter(cell, PauseEdit(pause), ok)];
    }

    /** One round of patchEndpoints or of the first loop of rollback. */
    method PatchOne(k: Key, endpoint: string, ghost kind: Kind) returns (ok: bool)
      requires k in stores
      modifies this
      ensures View() == EditAndWrite(bad, old(View()), k, EndpointEdit(endpoint), kind)
      ensures ok == (old(writes) !in bad)
    {
      ghost var before := stores;
      var cell := stores[k];
      stores := stores[k := cell.(mem := WithEndpoint(cell.mem, endpoint))];
      ok := KubeUpdate(k, kind, before);
      assert stores == before[k := CellAfter(cell, EndpointEdit(endpoint), ok)];
    }

    /** setPauseAnnotation stops at the first failed pause, and never stops while unpausing. */
    method SetPauseAnnotation(keys: seq<Key>, pause: bool) returns (errors: nat)
      requires Has(View(), keys)
      modifies this
      ensures var r := StorePass(bad, old(View()), keys, PauseEdit(pause), if pause then Pausing else Unpausing, pause);
              View() == r.world && (pause ==> (errors > 0 <==> r.done < |keys|))
      ensures stores.Keys == old(stores.Keys)
    {
      errors := 0;
      ghost var kind := if pause then Pausing else Unpausing;
      ghost var start := View();
      for i := 0 to |keys|
        invariant stores.Keys == start.stores.Keys && (pause ==> errors == 0)
        invariant var r := StorePass(bad, View(), keys[i..], PauseEdit(pause), kind, pause);
                  StorePass(bad, start, keys, PauseEdit(pause), kind, pause) == Pass(r.world, r.done + i)
      {
        ghost var rest := keys[i..];
        StorePassCount(bad, View(), rest, PauseEdit(pause), kind, pause);
        var ok := PauseOne(keys[i], pause);
        assert rest[0] == keys[i] && rest[1..] == keys[i + 1..];
        if !ok {
          errors := errors + 1;
          if pause { return; }
        }
      }
    }

    /** patchEndpoints returns how many stores it wrote before the first failure. */
    method PatchEndpoints(keys: seq<Key>, endpoint: string) returns (patched: seq<Key>)
      requires Has(View(), keys)
      modifies this
      ensures var r := StorePass(bad, old(View()), keys, EndpointEdit(endpoint), Patching, true);
              View() == r.world && r.done <= |keys| && patched == keys[..r.done]
      ensures stores.Keys == old(stores.Keys)
    {
      patched := [];
      ghost var start := View();
      for i := 0 to |keys|
        invariant stores.Keys == start.stores.Keys && patched == keys[..i]
        invariant var r := StorePass(bad, View(), keys[i..], EndpointEdit(endpoint), Patching, true);
                  StorePass(bad, start, keys, EndpointEdit(endpoint), Patching, true) == Pass(r.world, r.done + i)
      {
        ghost var rest := keys[i..];
        var ok := PatchOne(keys[i], endpoint, Patching);
        assert rest[0] == keys[i] && rest[1..] == keys[i + 1..];
        if !ok { return; }
        patched := patched + [keys[i]];
      }
    }

    /** The first loop of rollback, which carries on after a failed write. */
    method RevertEndpoints(keys: seq<Key>, endpoint: string)
      requires Has(View(), keys)
      modifies this
      ensures View() == StorePass(bad, old(View()), keys, EndpointEdit(endpoint), Reverting, false).world
      ensures stores.Keys == old(stores.Keys)
    {
      ghost var start := View();
      for i := 0 to |keys|
        invariant stores.Keys == start.stores.Keys
        invariant StorePass(bad, start, keys, EndpointEdit(endpoint), Reverting, false).world ==
                  StorePass(bad, View(), keys[i..], EndpointEdit(endpoint), Reverting, false).world
      {
        ghost var rest := keys[i..];
        var _ := PatchOne(keys[i], endpoint, Reverting);
        assert rest[0] == keys[i] && rest[1..] == keys[i + 1..];
      }
    }

    /** The connection loops of RunUpdate (`stop`) and of rollback. */
    method UpdateConnections(entries: seq<Entry>, endpoint: string, ghost kind: Kind, stop: bool) returns (done: nat)
      modifies this
      ensures ConnPass(bad, old(View()), entries, endpoint, kind, stop) == Pass(View(), done)
      ensures stores == old(stores)
    {
      done := 0;
      ghost var start := View();
      while done < |entries|
        invariant done <= |entries| && stores == start.stores
        invariant var r := ConnPass(bad, View(), entries[done..], endpoint, kind, stop);
                  ConnPass(bad, start, entries, endpoint, kind, stop) == Pass(r.world, r.done + done)
      {
        ghost var rest := entries[done..];
        var e := entries[done];
        var ok := UpdateConnectionAPI(e.name, Connection(endpoint, e.endpointType), kind);
        assert rest[0] == e && rest[1..] == entries[done + 1..];
        if stop && !ok { return; }
        done := done + 1;
      }
    }

    method DoRollback(patched: seq<Key>, oldEndpoint: string, all: seq<Key>, updated: seq<Entry>)
      requires Has(View(), patched) && Has(View(), all)
      modifies this
      ensures View() == Rollback(bad, old(View()), patched, oldEndpoint, all, updated)
    {
      RevertEndpoints(patched, oldEndpoint);
      var _ := UpdateConnections(updated, oldEndpoint, Reverting, false);
      var _ := SetPauseAnnotation(all, false);
    }

    /** RunUpdate once the matched stores are paused; the connections are looked up only after the patches. */
    method Update(matched: seq<Key>, accounts: Option<seq<seq<Listing>>>, oldEndpoint: string, newEndpoint: string)
      returns (outcome: Outcome, ghost entries: seq<Entry>)
      requires Has(View(), matched) && (accounts.Some? ==> Describes(accounts.value, core))
      modifies this
      ensures accounts.Some? && !outcome.PatchFailed? ==> ListsConnections(entries, old(core), oldEndpoint)
      ensures var r := AfterPause(bad, old(View()), matched, accounts.Some?, entries, oldEndpoint, newEndpoint);
              View() == r.world && outcome == r.outcome
    {
      entries := [];
      StorePassCount(bad, View(), matched, EndpointEdit(newEndpoint), Patching, true);
      var patched := PatchEndpoints(matched, newEndpoint);
      if |patched| < |matched| {
        DoRollback(patched, oldEndpoint, matched, []);
        return PatchFailed(|patched|), [];
      }
      assert patched == matched && core == old(core);
      if accounts.None? {
        DoRollback(patched, oldEndpoint, matched, []);
        return ReadFailed, [];
      }
      var found := FindConnections(accounts.value, oldEndpoint, core);
      entries := found;
      outcome := UpdateFound(matched, found, oldEndpoint, newEndpoint);
    }

    /** The rest of RunUpdate, from the connections found. */
    method UpdateFound(matched: seq<Key>, found: seq<Entry>, oldEndpoint: string, newEndpoint: string)
      returns (outcome: Outcome)
      requires Has(View(), matched)
      modifies this
      ensures var r := AfterPatch(bad, old(View()), matched, found, oldEndpoint, newEndpoint);
              View() == r.world && outcome == r.outcome
    {
      var done := UpdateConnections(found, newEndpoint, Connecting, true);
      if done < |found| {
        DoRollback(matched, oldEndpoint, matched, found[..done]);
        return ConnectFailed(done);
      }
      var _ := SetPauseAnnotation(matched, false);
      return Completed;
    }

    /** The command from the matched stores on. */
    method Execute(matched: seq<Key>, validated: bool, accounts: Option<seq<seq<Listing>>>, oldEndpoint: string,
                   newEndpoint: string)
      returns (outcome: Outcome, ghost entries: seq<Entry>)
      requires Has(View(), matched) && (accounts.Some? ==> Describes(accounts.value, core))
      modifies this
      ensures outcome.NothingMatched? <==> matched == []
      ensures outcome.ValidationFailed? <==> matched != [] && !validated
      ensures outcome.NothingMatched? || outcome.ValidationFailed? ==> View() == old(View())
      ensures outcome.Completed? ==> validated && accounts.Some? && ListsConnections(entries, old(core), oldEndpoint)
      ensures var r := RunUpdate(bad, old(View()), matched, validated, accounts.Some?, entries, oldEndpoint,
          newEndpoint);
              View() == r.world && outcome == r.outcome
    {
      entries := [];
      RefusedChangesNothing(bad, View(), matched, validated, accounts.Some?, [], oldEndpoint, newEndpoint);
      if matched == [] { return NothingMatched, []; }
      if !validated { return ValidationFailed, []; }
      StorePassCount(bad, View(), matched, PauseEdit(true), Pausing, true);
      var errors := SetPauseAnnotation(matched, true);
      if errors > 0 {
        var _ := SetPauseAnnotation(matched, false);
        return PauseFailed, [];
      }
      assert core == old(core);
      outcome, entries := Update(matched, accounts, oldEndpoint, newEndpoint);
    }

    /**
     The whole command on the trimmed flags, the listed stores, the outcome of reading secrets, the stores
     that pass validation and the system info (None when reading it fails).  A run that finishes
     leaves nothing on the old endpoint.
     */
    method Command(listed: seq<Key>, secretsOk: bool, passes: set<Key>, accounts: Option<seq<seq<Listing>>>,
                   oldEndpoint: string, newEndpoint: string)
      returns (outcome: CommandOutcome, ghost matched: seq<Key>, ghost entries: seq<Entry>)
      requires Listed(View()) && Distinct(listed) && (forall k :: k in listed <==> k in stores)
      requires accounts.Some? ==> Describes(accounts.value, core)
      modifies this
      ensures outcome.BadFlags? <==> oldEndpoint == "" || newEndpoint == ""
      ensures outcome == Ended(ValidationFailed) <==>
                && oldEndpoint != "" && newEndpoint != "" && matched != []
                && !(secretsOk && forall k :: k in matched ==> k in passes)
      ensures outcome in {BadFlags, Ended(NothingMatched), Ended(ValidationFailed)} ==> View() == old(View())
      ensures outcome.Ended? ==>
                && matched == Matching(old(stores), listed, oldEndpoint) && Has(old(View()), matched)
                && var validated := secretsOk && forall k :: k in matched ==> k in passes;
                   var r := RunUpdate(bad, old(View()), matched, validated, accounts.Some?, entries, oldEndpoint,
                       newEndpoint);
                   View() == r.world && outcome.outcome == r.outcome
      ensures outcome == Ended(Completed) && oldEndpoint != newEndpoint ==> NoneOn(View(), oldEndpoint)
    {
      matched, entries := [], [];
      if oldEndpoint == "" || newEndpoint == "" { return BadFlags, [], []; }
      var found := FindMatchingStores(stores, listed, oldEndpoint);
      matched := found;
      var failed := ValidateStores(found, passes);
      assert failed == [] <==> forall k :: k in found ==> k in passes by {
        if failed != [] { assert failed[0] in failed; }
      }
      var o;
      o, entries := Execute(found, secretsOk && failed == [], accounts, oldEndpoint, newEndpoint);
      outcome := Ended(o);
      if o.Completed? && oldEndpoint != newEndpoint {
        NothingLeftOnOld(bad, old(View()), listed, entries, oldEndpoint, newEndpoint);
      }
    }
  }
}
