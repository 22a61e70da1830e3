/**
 Retention of the scheduled database snapshots: which are deleted, which survive, and what the
 status then reports.  Which delete calls fail is a parameter; an already missing snapshot counts as
 deleted, as it does in the original.
 */
module Retention {
  import opened Wrappers

  datatype Snapshot = Snapshot(name: string, created: int)

  /** A non-positive maximum other than zero makes the original slice beyond the list. */
  datatype Outcome = Skipped | OutOfRange | Done(server: set<string>, total: int, available: seq<string>)

  predicate Ordered(s: seq<Snapshot>) {
    forall i, j :: 0 <= i < j < |s| ==> s[i].created <= s[j].created
  }

  predicate UniqueNames(s: seq<Snapshot>) {
    forall i, j :: 0 <= i < j < |s| ==> s[i].name != s[j].name
  }

  function Names(s: seq<Snapshot>): (r: seq<string>)
    ensures |r| == |s| && forall i :: 0 <= i < |r| ==> r[i] == s[i].name
  {
    seq(|s|, i requires 0 <= i < |s| => s[i].name)
  }

  function NameSet(s: seq<Snapshot>): set<string> {
    set i | 0 <= i < |s| :: s[i].name
  }

  lemma {:induction false} NameSetSize(s: seq<Snapshot>)
    requires UniqueNames(s)
    ensures |NameSet(s)| == |s|
  {
    if s == [] {
      assert NameSet(s) == {};
    } else {
      var front, last := s[..|s| - 1], s[|s| - 1];
      NameSetSize(front);
      forall n ensures n in NameSet(s) <==> n in NameSet(front) + {last.name} {
        if n in NameSet(front) {
          var i :| 0 <= i < |front| && front[i].name == n;
          assert s[i].name == n;
        }
        if n in NameSet(s) && n != last.name {
          var i :| 0 <= i < |s| && s[i].name == n;
          assert front[i].name == n;
        }
      }
      assert NameSet(s) == NameSet(front) + {last.name};
      assert last.name !in NameSet(front);
    }
  }

  /** How many of the oldest snapshots are candidates for deletion. */
  function Excess(s: seq<Snapshot>, max: int): nat
    requires max > 0
  {
    if |s| > max then |s| - max else 0
  }

  /** A candidate survives as the recovery snapshot or because its delete failed. */
  predicate Survives(name: string, recovery: Option<string>, failing: set<string>) {
    recovery == Some(name) || name in failing
  }

  /** The recovery snapshot, if it is among these. */
  function OldRecovery(s: seq<Snapshot>, recovery: Option<string>): seq<string> {
    if recovery.Some? && recovery.value in NameSet(s) then [recovery.value] else []
  }

  lemma OldRecoveryNext(s: seq<Snapshot>, k: nat, recovery: Option<string>)
    requires UniqueNames(s) && k < |s|
    ensures OldRecovery(s[..k + 1], recovery) ==
        OldRecovery(s[..k], recovery) + (if recovery == Some(s[k].name) then [s[k].name] else [])
  {
    var before, after := s[..k], s[..k + 1];
    assert after == before + [s[k]];
    if recovery.Some? {
      var x := recovery.value;
      if x in NameSet(before) {
        var i :| 0 <= i < |before| && before[i].name == x;
        assert after[i].name == x;
      }
      if x in NameSet(after) && x != s[k].name {
        var i :| 0 <= i < |after| && after[i].name == x;
        assert before[i].name == x;
      }
      assert after[k].name == s[k].name;
    }
  }

  lemma RemoveOne(names: set<string>, left: set<string>, name: string)
    requires name in names && name in left
    ensures |names * (left - {name})| == |names * left| - 1
  {
    assert names * (left - {name}) == names * left - {name};
  }

  // ---------------------------------------------------------------- the listing

  /** What the listing of `items` may be: the snapshots of the scheduled backup in some order by creation. */
  ghost predicate IsListing(l: seq<Snapshot>, items: seq<Snapshot>, prefix: string) {
    && Ordered(l)
    && forall x :: multiset(l)[x] == if prefix <= x.name then multiset(items)[x] else 0
  }

  /** The filter keeps the snapshots whose name starts with the scheduled backup's. */
  method FilterByName(items: seq<Snapshot>, prefix: string) returns (kept: seq<Snapshot>)
    ensures forall x :: multiset(kept)[x] == if prefix <= x.name then multiset(items)[x] else 0
  {
    kept := [];
    for i := 0 to |items|
      invariant forall x :: multiset(kept)[x] == if prefix <= x.name then multiset(items[..i])[x] else 0
    {
      assert items[..i + 1] == items[..i] + [items[i]];
      if prefix <= items[i].name {
        kept := kept + [items[i]];
      }
    }
    assert items[..|items|] == items;
  }

  function Insert(x: Snapshot, s: seq<Snapshot>): seq<Snapshot> {
    if s == [] || x.created <= s[0].created then [x] + s else [s[0]] + Insert(x, s[1..])
  }

  lemma OrderedCons(head: Snapshot, tail: seq<Snapshot>)
    requires Ordered(tail) && (tail == [] || head.created <= tail[0].created)
    ensures Ordered([head] + tail)
  {
    var s := [head] + tail;
    forall i, j | 0 <= i < j < |s| ensures s[i].created <= s[j].created {
      if i == 0 {
        assert tail[0].created <= tail[j - 1].created;
      } else {
        assert tail[i - 1].created <= tail[j - 1].created;
      }
    }
  }

  lemma {:induction false} InsertOrdered(x: Snapshot, s: seq<Snapshot>)
    requires Ordered(s)
    ensures var r := Insert(x, s); Ordered(r) && r != [] && (r[0] == x || (s != [] && r[0] == s[0]))
  {
    if s == [] || x.created <= s[0].created {
      OrderedCons(x, s);
    } else {
      assert Ordered(s[1..]);
      InsertOrdered(x, s[1..]);
      OrderedCons(s[0], Insert(x, s[1..]));
    }
  }

  lemma {:induction false} InsertCounts(x: Snapshot, s: seq<Snapshot>)
    ensures multiset(Insert(x, s)) == multiset(s) + multiset{x}
  {
    if s == [] || x.created <= s[0].created {
    } else {
      InsertCounts(x, s[1..]);
      assert s == [s[0]] + s[1..];
    }
  }

  /** The listing in one of the orders by creation; the original's sort may pick any of them. */
  method ListOrderByCreate(items: seq<Snapshot>, prefix: string) returns (l: seq<Snapshot>)
    ensures IsListing(l, items, prefix)
  {
    var kept := FilterByName(items, prefix);
    l := [];
    for i := 0 to |kept|
      invariant Ordered(l) && multiset(l) == multiset(kept[..i])
    {
      assert kept[..i + 1] == kept[..i] + [kept[i]];
      InsertOrdered(kept[i], l);
      InsertCounts(kept[i], l);
      l := Insert(kept[i], l);
    }
    assert kept[..|kept|] == kept;
  }

  // ---------------------------------------------------------------- what is deleted

  /** The names the loop deletes of the `n` oldest. */
  function Doomed(s: seq<Snapshot>, n: nat, recovery: Option<string>, failing: set<string>): set<string>
    requires n <= |s|
  {
    set i | 0 <= i < n && !Survives(s[i].name, recovery, failing) :: s[i].name
  }

  /** reconcileBackupRetention on a listing: what is left on the server, the total, the available ones. */
  function Plan(s: seq<Snapshot>, server: set<string>, max: int, recovery: Option<string>,
                failing: set<string>): Outcome {
    if max == 0 then Skipped
    else if max < 0 then OutOfRange
    else
      var n := Excess(s, max);
      var left := server - Doomed(s, n, recovery, failing);
      Done(left, |NameSet(s) * left|, Names(s[n..]) + OldRecovery(s[..n], recovery))
  }

  lemma DoomedNext(s: seq<Snapshot>, k: nat, recovery: Option<string>, failing: set<string>)
    requires k < |s|
    ensures Doomed(s, k + 1, recovery, failing) ==
            Doomed(s, k, recovery, failing) + if Survives(s[k].name, recovery, failing) then {} else {s[k].name}
  {
  }

  lemma NotYetDoomed(s: seq<Snapshot>, k: nat, recovery: Option<string>, failing: set<string>)
    requires UniqueNames(s) && k < |s|
    ensures s[k].name !in Doomed(s, k, recovery, failing) && s[k].name in NameSet(s)
  {
  }

  /** What going past snapshot `k` does to the names left and to their number. */
  lemma LeftNext(s: seq<Snapshot>, k: nat, server: set<string>, recovery: Option<string>, failing: set<string>)
    requires UniqueNames(s) && NameSet(s) <= server && k < |s|
    ensures var a, b := server - Doomed(s, k, recovery, failing), server - Doomed(s, k + 1, recovery, failing);
            if Survives(s[k].name, recovery, failing) then b == a
            else b == a - {s[k].name} && |NameSet(s) * b| == |NameSet(s) * a| - 1
  {
    DoomedNext(s, k, recovery, failing);
    NotYetDoomed(s, k, recovery, failing);
    if !Survives(s[k].name, recovery, failing) {
      RemoveOne(NameSet(s), server - Doomed(s, k, recovery, failing), s[k].name);
    }
  }

  /** The deletion loop over the `n` oldest. */
  method DeleteOldest(s: seq<Snapshot>, n: nat, server: set<string>, recovery: Option<string>, failing: set<string>)
    returns (left: set<string>, total: int, available: seq<string>)
    requires UniqueNames(s) && NameSet(s) <= server && n <= |s|
    ensures left == server - Doomed(s, n, recovery, failing)
    ensures total == |NameSet(s) * left|
    ensures available == Names(s[n..]) + OldRecovery(s[..n], recovery)
  {
    NameSetSize(s);
    assert NameSet(s) * server == NameSet(s);
    total, left, available := |s|, server, Names(s[n..]);
    assert Doomed(s, 0, recovery, failing) == {};
    for k := 0 to n
      invariant left == server - Doomed(s, k, recovery, failing)
      invariant total == |NameSet(s) * left|
      invariant available == Names(s[n..]) + OldRecovery(s[..k], recovery)
    {
      var name := s[k].name;
      OldRecoveryNext(s, k, recovery);
      LeftNext(s, k, server, recovery, failing);
      if recovery == Some(name) {
        available := available + [name];
      } else if name !in failing {
        left, total := left - {name}, total - 1;
      }
    }
  }

  /** reconcileBackupRetention after the listing, on a server that holds what was listed. */
  method ReconcileBackupRetention(s: seq<Snapshot>, server: set<string>, max: int, recovery: Option<string>,
                                  failing: set<string>)
    returns (r: Outcome)
    requires UniqueNames(s) && NameSet(s) <= server
    ensures r == Plan(s, server, max, recovery, failing)
  {
    if max == 0 { return Skipped; }
    if max < 0 { return OutOfRange; }
    var left, total, available := DeleteOldest(s, Excess(s, max), server, recovery, failing);
    return Done(left, total, available);
  }

  // ---------------------------------------------------------------- what that means for the snapshots

  /** Of the first `k` snapshots only survivors are left, and all the later ones are. */
  predicate Kept(s: seq<Snapshot>, left: set<string>, k: nat, recovery: Option<string>, failing: set<string>) {
    forall i :: 0 <= i < |s| ==> (s[i].name in left <==> i >= k || Survives(s[i].name, recovery, failing))
  }

  /**
   The newest `max` and the recovery snapshot are never deleted, every other survivor is one whose
   delete failed, and nothing outside the list is touched.
   */
  lemma PlanKeeps(s: seq<Snapshot>, server: set<string>, max: int, recovery: Option<string>, failing: set<string>)
    requires UniqueNames(s) && NameSet(s) <= server && max > 0
    ensures var r := Plan(s, server, max, recovery, failing);
            && Kept(s, r.server, Excess(s, max), recovery, failing)
            && r.server <= server && server - NameSet(s) <= r.server
            && (recovery.Some? && recovery.value in server ==> recovery.value in r.server)
  {
    var n := Excess(s, max);
    forall i | 0 <= i < |s|
      ensures s[i].name in Doomed(s, n, recovery, failing) <==> i < n && !Survives(s[i].name, recovery, failing)
    {
      if i >= n {
        forall j | 0 <= j < n ensures s[j].name != s[i].name { }
      }
      assert s[i].name in NameSet(s);
    }
  }

  /** The newest of the list, all but the `n` oldest, oldest of them first, and last the recovery snapshot if older. */
  predicate Reported(s: seq<Snapshot>, n: nat, recovery: Option<string>, available: seq<string>)
    requires n <= |s|
  {
    var kept := |s| - n;
    && |available| >= kept && (forall i :: 0 <= i < kept ==> available[i] == s[n + i].name)
    && (if recovery.Some? && exists i :: 0 <= i < n && s[i].name == recovery.value
        then available[kept..] == [recovery.value] else |available| == kept)
  }

  lemma AvailableShape(s: seq<Snapshot>, n: nat, recovery: Option<string>)
    requires n <= |s|
    ensures Reported(s, n, recovery, Names(s[n..]) + OldRecovery(s[..n], recovery))
  {
    var newest, older := Names(s[n..]), OldRecovery(s[..n], recovery);
    assert (newest + older)[|s| - n..] == older;
    if recovery.Some? && exists i :: 0 <= i < n && s[i].name == recovery.value {
      var i :| 0 <= i < n && s[i].name == recovery.value;
      assert s[..n][i].name == recovery.value;
    }
  }

  /**
   What the status then reports: as total what is left of the list, each deleted one taken off, and as
   available the newest and the recovery snapshot.
   */
  lemma PlanReports(s: seq<Snapshot>, server: set<string>, max: int, recovery: Option<string>, failing: set<string>)
    requires UniqueNames(s) && max > 0
    ensures var r := Plan(s, server, max, recovery, failing);
            && r.total + |NameSet(s) - r.server| == |s|
            && Reported(s, if |s| > max then |s| - max else 0, recovery, r.available)
  {
    var left := Plan(s, server, max, recovery, failing).server;
    NameSetSize(s);
    assert NameSet(s) == NameSet(s) * left + (NameSet(s) - left);
    AvailableShape(s, Excess(s, max), recovery);
  }

  /** Whatever is reported as available is still there. */
  lemma AvailableLeft(s: seq<Snapshot>, left: set<string>, n: nat, recovery: Option<string>, failing: set<string>,
                      available: seq<string>, i: nat)
    requires n <= |s| && Kept(s, left, n, recovery, failing) && Reported(s, n, recovery, available) && i < |available|
    ensures available[i] in left
  {
    var kept := |s| - n;
    if i >= kept {
      var j :| 0 <= j < n && s[j].name == recovery.value;
      assert available[kept..][i - kept] == available[i];
    }
  }

  lemma {:induction false} UniqueCount(s: seq<Snapshot>, x: Snapshot)
    requires UniqueNames(s)
    ensures multiset(s)[x] <= 1
  {
    if s != [] {
      var front, last := s[..|s| - 1], s[|s| - 1];
      assert s == front + [last];
      UniqueCount(front, x);
      if last == x { assert forall i :: 0 <= i < |front| ==> front[i] == s[i]; }
    }
  }

  lemma TwiceCounts(s: seq<Snapshot>, i: nat, j: nat)
    requires i < j < |s| && s[i] == s[j]
    ensures multiset(s)[s[i]] >= 2
  {
    assert s == s[..j] + s[j..];
    assert s[..j][i] in multiset(s[..j]) && s[j..][0] in multiset(s[j..]);
  }

  lemma ListingMembers(l: seq<Snapshot>, items: seq<Snapshot>, prefix: string, x: Snapshot)
    requires IsListing(l, items, prefix)
    ensures x in l <==> x in items && prefix <= x.name
  {
    assert x in multiset(l) <==> multiset(l)[x] > 0;
    assert x in multiset(items) <==> multiset(items)[x] > 0;
  }

  lemma SameNameSame(items: seq<Snapshot>, x: Snapshot, y: Snapshot)
    requires UniqueNames(items) && x in items && y in items && x.name == y.name
    ensures x == y
  {
  }

  /** A listing of uniquely named snapshots has unique names. */
  lemma ListingUnique(l: seq<Snapshot>, items: seq<Snapshot>, prefix: string)
    requires IsListing(l, items, prefix) && UniqueNames(items)
    ensures UniqueNames(l)
  {
    forall i, j | 0 <= i < j < |l| ensures l[i].name != l[j].name {
      if l[i].name == l[j].name {
        ListingMembers(l, items, prefix, l[i]);
        ListingMembers(l, items, prefix, l[j]);
        SameNameSame(items, l[i], l[j]);
        TwiceCounts(l, i, j);
        UniqueCount(items, l[i]);
      }
    }
  }

  /** A set of `max` snapshots of the scheduled backup, all kept and all at least as new as `x`. */
  ghost predicate NewerKept(items: seq<Snapshot>, prefix: string, left: set<string>, x: Snapshot, max: int,
                            newer: set<string>) {
    && |newer| == max && newer <= left
    && forall y :: y in items && y.name in newer ==> prefix <= y.name && y.created >= x.created
  }

  /**
   From the unsorted items of the API server to what is deleted, for whichever order by creation the
   sort picks: a snapshot is deleted only if it belongs to the scheduled backup, is not the one to
   recover from, and at least `max` others that are as new or newer are kept.
   */
  lemma DeletedHasNewer(items: seq<Snapshot>, prefix: string, l: seq<Snapshot>, server: set<string>, max: int,
                        recovery: Option<string>, failing: set<string>, x: Snapshot)
    returns (newer: set<string>)
    requires UniqueNames(items) && NameSet(items) <= server && IsListing(l, items, prefix) && max > 0
    requires x in items && x.name !in Plan(l, server, max, recovery, failing).server
    ensures prefix <= x.name && recovery != Some(x.name) && x.name !in failing
    ensures NewerKept(items, prefix, Plan(l, server, max, recovery, failing).server, x, max, newer)
  {
    ListingUnique(l, items, prefix);
    ListingServed(l, items, prefix, server);
    PlanKeeps(l, server, max, recovery, failing);
    var left, n := Plan(l, server, max, recovery, failing).server, Excess(l, max);
    assert x.name in NameSet(items);
    var i := DoomedAt(l, n, recovery, failing, x.name);
    ListingMembers(l, items, prefix, l[i]);
    SameNameSame(items, l[i], x);
    newer := NameSet(l[n..]);
    NameSetSize(l[n..]);
    TailKept(l, left, n, recovery, failing);
    forall y | y in items && y.name in newer ensures prefix <= y.name && y.created >= x.created {
      TailNewer(l, items, prefix, n, i, y);
    }
  }

  lemma DoomedAt(l: seq<Snapshot>, n: nat, recovery: Option<string>, failing: set<string>, name: string)
    returns (i: nat)
    requires n <= |l| && name in Doomed(l, n, recovery, failing)
    ensures i < n && l[i].name == name && !Survives(name, recovery, failing)
  {
    i :| 0 <= i < n && !Survives(l[i].name, recovery, failing) && l[i].name == name;
  }

  lemma TailKept(l: seq<Snapshot>, left: set<string>, n: nat, recovery: Option<string>, failing: set<string>)
    requires n <= |l| && Kept(l, left, n, recovery, failing)
    ensures NameSet(l[n..]) <= left
  {
    forall name | name in NameSet(l[n..]) ensures name in left {
      var j :| 0 <= j < |l[n..]| && l[n..][j].name == name;
      assert l[n + j].name == name;
    }
  }

  lemma TailNewer(l: seq<Snapshot>, items: seq<Snapshot>, prefix: string, n: nat, i: nat, y: Snapshot)
    requires IsListing(l, items, prefix) && UniqueNames(items) && i < n <= |l| && y in items
        && y.name in NameSet(l[n..])
    ensures prefix <= y.name && y.created >= l[i].created
  {
    var j :| 0 <= j < |l[n..]| && l[n..][j].name == y.name;
    var z := l[n + j];
    ListingMembers(l, items, prefix, z);
    SameNameSame(items, z, y);
  }

  lemma ListingServed(l: seq<Snapshot>, items: seq<Snapshot>, prefix: string, server: set<string>)
    requires IsListing(l, items, prefix) && NameSet(items) <= server
    ensures NameSet(l) <= server
  {
    forall i | 0 <= i < |l| ensures l[i].name in server {
      ListingMembers(l, items, prefix, l[i]);
      var j :| 0 <= j < |items| && items[j] == l[i];
      assert items[j].name in NameSet(items);
    }
  }

  /** The whole of reconcileBackupRetention: list, order, delete. */
  method ReconcileRetention(items: seq<Snapshot>, prefix: string, server: set<string>, max: int,
                            recovery: Option<string>, failing: set<string>)
    returns (r: Outcome, ghost l: seq<Snapshot>)
    requires UniqueNames(items) && NameSet(items) <= server
    ensures IsListing(l, items, prefix) && r == Plan(l, server, max, recovery, failing)
  {
    var listed := ListOrderByCreate(items, prefix);
    ListingUnique(listed, items, prefix);
    ListingServed(listed, items, prefix, server);
    r := ReconcileBackupRetention(listed, server, max, recovery, failing);
    l := listed;
  }
}
