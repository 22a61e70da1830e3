/**
 Matching of claims and agent pods in a PV pool: claims are created up to NumVolumes under random
 names, a pod is created for every claim no listed pod uses, named after the claim's last dash.

 The pool is what the API server holds: the claims, and each pod with the claim it mounts.  Creating
 an object whose name is taken changes nothing, and any create may fail.
 */
module PvPool {

  datatype Pool = Pool(pods: map<string, string>, claims: set<string>)

  /** The names of one pool: the backing store and the system. */
  datatype Owner = Owner(store: string, system: string)

  // ---------------------------------------------------------------- names

  /** The part after the last dash, or the whole name. */
  function Postfix(name: string): string {
    if name == [] then []
    else if name[|name| - 1] == '-' then []
    else Postfix(name[..|name| - 1]) + [name[|name| - 1]]
  }

  function ClaimName(o: Owner, hex: string): string {
    o.store + "-" + o.system + "-pvc-" + hex
  }

  function PodName(o: Owner, claim: string): string {
    o.store + "-" + o.system + "-pod-" + Postfix(claim)
  }

  lemma {:induction false} PostfixAfterDash(prefix: string, hex: string)
    requires '-' !in hex
    ensures Postfix(prefix + "-" + hex) == hex
  {
    var name := prefix + "-" + hex;
    if hex == [] {
      assert name[|name| - 1] == '-';
    } else {
      var front := hex[..|hex| - 1];
      PostfixAfterDash(prefix, front);
      assert name[..|name| - 1] == prefix + "-" + front;
      assert name[|name| - 1] == hex[|hex| - 1];
      assert hex[|hex| - 1] in hex;
    }
  }

  lemma ClaimPostfix(o: Owner, hex: string)
    requires '-' !in hex
    ensures Postfix(ClaimName(o, hex)) == hex
  {
    var prefix := o.store + "-" + o.system + "-pvc";
    assert ClaimName(o, hex) == prefix + "-" + hex;
    PostfixAfterDash(prefix, hex);
  }

  /** A name reconcileMissingPvcs gives: the random part is hexadecimal, so it holds no dash. */
  predicate Generated(o: Owner, claim: string) {
    claim == ClaimName(o, Postfix(claim))
  }

  lemma ClaimGenerated(o: Owner, hex: string)
    requires '-' !in hex
    ensures Generated(o, ClaimName(o, hex))
  {
    ClaimPostfix(o, hex);
  }

  lemma PodNameSplits(o: Owner, claim: string)
    ensures PodName(o, claim)[|o.store + "-" + o.system + "-pod-"|..] == Postfix(claim)
  {
  }

  /** Pods of generated claims have the same name only for the same claim. */
  lemma PodNamesDistinct(o: Owner, a: string, b: string)
    requires Generated(o, a) && Generated(o, b)
    ensures PodName(o, a) == PodName(o, b) <==> a == b
  {
    PodNameSplits(o, a);
    PodNameSplits(o, b);
  }

  // ---------------------------------------------------------------- the count guard

  /** Some claim has no pod. */
  predicate Lacking(p: Pool) {
    exists c :: c in p.claims && c !in p.pods.Values
  }

  predicate DistinctClaims(p: Pool) {
    forall a, b :: a in p.pods && b in p.pods && a != b ==> p.pods[a] != p.pods[b]
  }

  lemma {:induction false} ValuesCount(m: map<string, string>)
    requires forall a, b :: a in m && b in m && a != b ==> m[a] != m[b]
    ensures |m.Values| == |m|
    decreases |m|
  {
    if m == map[] {
      assert m.Values == {};
    } else {
      var k :| k in m;
      var rest := m - {k};
      assert m.Keys == rest.Keys + {k};
      assert |rest| == |m| - 1 by { assert |m.Keys| == |rest.Keys| + 1; }
      ValuesCount(rest);
      forall v ensures v in m.Values <==> v in rest.Values + {m[k]} {
        if v in m.Values {
          var a :| a in m && m[a] == v;
          if a != k { assert a in rest && rest[a] == v; }
        }
        if v in rest.Values {
          var a :| a in rest && rest[a] == v;
          assert a in m && m[a] == v;
        }
        assert m[k] in m.Values;
      }
      assert m.Values == rest.Values + {m[k]};
      assert m[k] !in rest.Values;
    }
  }

  lemma SubsetCount(a: set<string>, b: set<string>)
    requires a <= b
    ensures |b| == |a| + |b - a|
  {
    assert b == a + (b - a);
  }

  /** Pods beyond the first on one claim. */
  function Duplicates(p: Pool): int {
    |p.pods| - |p.pods.Values|
  }

  /** Mounted claims that are not listed. */
  function Orphans(p: Pool): set<string> {
    p.pods.Values - p.claims
  }

  lemma {:induction false} ValuesBound(m: map<string, string>)
    ensures |m.Values| <= |m|
    decreases |m|
  {
    if m == map[] {
      assert m.Values == {};
    } else {
      var k :| k in m;
      var rest := m - {k};
      assert m.Keys == rest.Keys + {k} && |m.Keys| == |rest.Keys| + 1;
      ValuesBound(rest);
      forall v | v in m.Values ensures v in rest.Values + {m[k]} {
        var a :| a in m && m[a] == v;
        if a != k { assert a in rest && rest[a] == v; }
      }
      SubsetCount(m.Values, rest.Values + {m[k]});
    }
  }

  /**
   What comparing counts comes to, for every pool: the number of claims without a pod is the
   difference of the counts, plus the duplicate pods, plus the orphaned ones.
   */
  lemma LackingCount(p: Pool)
    ensures Duplicates(p) >= 0
    ensures |p.claims - p.pods.Values| == |p.claims| - |p.pods| + Duplicates(p) + |Orphans(p)|
  {
    ValuesBound(p.pods);
    var mounted := p.claims * p.pods.Values;
    SubsetCount(mounted, p.claims);
    SubsetCount(mounted, p.pods.Values);
    assert p.claims - mounted == p.claims - p.pods.Values && p.pods.Values - mounted == Orphans(p);
  }

  lemma LackingIffAny(p: Pool)
    ensures Lacking(p) <==> |p.claims - p.pods.Values| > 0
  {
    var free := p.claims - p.pods.Values;
    if Lacking(p) {
      var c :| c in p.claims && c !in p.pods.Values;
      assert c in free;
    } else {
      assert free == {};
    }
  }

  /**
   So the guard misses claims without a pod exactly when there are some, but no more of them than
   there are duplicate and orphaned pods.
   */
  lemma GuardBlindIff(p: Pool)
    ensures Lacking(p) && !(|p.pods| < |p.claims|) <==>
            0 < |p.claims - p.pods.Values| <= Duplicates(p) + |Orphans(p)|
  {
    LackingCount(p);
    LackingIffAny(p);
  }

  /** The smallest such pool: one pod whose claim is gone, one claim without a pod. */
  lemma OrphanHidesClaim()
    ensures var p := Pool(map["s-n-pod-1" := "s-n-pvc-1"], {"s-n-pvc-2"}); Lacking(p) && !(|p.pods| < |p.claims|)
  {
    var p := Pool(map["s-n-pod-1" := "s-n-pvc-1"], {"s-n-pvc-2"});
    assert "s-n-pvc-2" in p.claims;
    forall v | v in p.pods.Values ensures v == "s-n-pvc-1" { var a :| a in p.pods && p.pods[a] == v; }
    assert p.pods.Keys == {"s-n-pod-1"};
    assert |p.pods| == |p.pods.Keys|;
  }

  /** Comparing counts finds a claim without a pod exactly when there is one, if pods mount distinct listed claims. */
  lemma GuardExact(p: Pool)
    requires DistinctClaims(p) && p.pods.Values <= p.claims
    ensures |p.pods| < |p.claims| <==> Lacking(p)
  {
    ValuesCount(p.pods);
    LackingCount(p);
    LackingIffAny(p);
    assert Orphans(p) == {};
  }

  // ---------------------------------------------------------------- reconciling

  predicate NoDash(draws: seq<string>) {
    forall i :: 0 <= i < |draws| ==> '-' !in draws[i]
  }

  /** reconcileMissingPvcs, with the random names it draws. */
  function AddClaims(o: Owner, claims: set<string>, draws: seq<string>, failing: set<string>): set<string>
    decreases draws
  {
    if draws == [] then claims
    else
      var name := ClaimName(o, draws[0]);
      AddClaims(o, if name in failing then claims else claims + {name}, draws[1..], failing)
  }

  /** The loop of reconcileMissingPods over the listed claims; `used` are the claims of the listed pods. */
  function AddPods(o: Owner, pods: map<string, string>, used: set<string>, listed: seq<string>,
                   failing: set<string>): map<string, string>
    decreases listed
  {
    if listed == [] then pods
    else
      var claim := listed[0];
      var name := PodName(o, claim);
      var next := if claim in used || name in pods || name in failing then pods else pods[name := claim];
      AddPods(o, next, used, listed[1..], failing)
  }

  /**
   One reconcile lists the pool, draws as many names as claims are missing, and lists the claims
   again; `templateOk` says whether the pod template can be built, `stale` are the pods judged stale
   and `undeleted` those whose delete fails, `hosts` are the agents known to the core, and `late` the
   pods older than ten minutes.
   */
  datatype Input = Input(numVolumes: int, draws: seq<string>, listed: seq<string>, failing: set<string>,
                         templateOk: bool, stale: set<string>, undeleted: set<string>, hosts: seq<string>,
                         late: set<string>)

  function Claims(o: Owner, p: Pool, i: Input): set<string> {
    if |p.claims| < i.numVolumes then AddClaims(o, p.claims, i.draws, i.failing) else p.claims
  }

  /** The stale pods among those that were listed at the start, as far as deleting them works. */
  function Gone(p: Pool, i: Input): set<string> {
    Deleted(p.pods.Keys, i)
  }

  function Deleted(listed: set<string>, i: Input): set<string> {
    listed * i.stale - i.undeleted
  }

  function Reconcile(o: Owner, p: Pool, i: Input): Pool {
    var claims := Claims(o, p, i);
    if |p.pods| < |claims| && !i.templateOk then Pool(p.pods, claims)
    else
      var pods := if |p.pods| < |claims| then AddPods(o, p.pods, p.pods.Values, i.listed, i.failing) else p.pods;
      Pool(pods - Gone(p, i), claims)
  }

  predicate InputOk(o: Owner, p: Pool, i: Input) {
    && NoDash(i.draws) && (|p.claims| < i.numVolumes ==> |i.draws| == i.numVolumes - |p.claims|)
    && (forall c :: c in i.listed ==> c in Claims(o, p, i)) && (forall c :: c in Claims(o, p, i) ==> c in i.listed)
  }

  // ---------------------------------------------------------------- the report

  /** isPodinNoobaa: some agent is named after the pod. */
  predicate InNoobaa(hosts: seq<string>, pod: string) {
    exists i :: 0 <= i < |hosts| && pod <= hosts[i]
  }

  /** That is, of its name with anything behind it. */
  lemma InNoobaaIff(hosts: seq<string>, pod: string)
    ensures InNoobaa(hosts, pod) <==> exists i, rest :: 0 <= i < |hosts| && hosts[i] == pod + rest
  {
    if InNoobaa(hosts, pod) {
      var i :| 0 <= i < |hosts| && pod <= hosts[i];
      assert hosts[i] == pod + hosts[i][|pod|..];
    }
  }

  datatype Report = Healthy | NotStarted(started: nat) | FailedAttaching(failed: nat) | StillConnecting(pending: nat)

  /** How a reconcile ends: without a pod template, or with a report on the pods that were listed. */
  datatype Ending = NoTemplate | Reported(report: Report)

  /** The listed pods that count as not attached; a stale one does not, as it is being deleted. */
  function Unattached(pods: set<string>, stale: set<string>, hosts: seq<string>): set<string> {
    set n | n in pods && n !in stale && !InNoobaa(hosts, n)
  }

  /** The end of reconcileExistingPods. */
  function Assess(pods: set<string>, unattached: set<string>, late: set<string>, numVolumes: int): Report {
    if |pods| < numVolumes then NotStarted(|pods|)
    else if |pods| - |unattached| >= numVolumes then Healthy
    else if unattached <= late then FailedAttaching(|unattached|)
    else StillConnecting(|unattached|)
  }

  function End(o: Owner, p: Pool, i: Input): Ending {
    if |p.pods| < |Claims(o, p, i)| && !i.templateOk then NoTemplate
    else Reported(Assess(p.pods.Keys, Unattached(p.pods.Keys, i.stale, i.hosts), i.late, i.numVolumes))
  }

  predicate NoRepeats(s: seq<string>) {
    forall i, j :: 0 <= i < j < |s| ==> s[i] != s[j]
  }

  function Elements(s: seq<string>): set<string> {
    set n | n in s
  }

  lemma ElementsNext(s: seq<string>, i: nat)
    requires i < |s| && NoRepeats(s)
    ensures Elements(s[..i + 1]) == Elements(s[..i]) + {s[i]} && s[i] !in Elements(s[..i])
  {
    assert s[..i + 1] == s[..i] + [s[i]];
  }

  lemma {:induction false} ElementsCount(s: seq<string>)
    requires NoRepeats(s)
    ensures |Elements(s)| == |s|
  {
    if s != [] {
      var n := |s| - 1;
      ElementsNext(s, n);
      assert s[..n + 1] == s;
      ElementsCount(s[..n]);
    } else {
      assert Elements(s) == {};
    }
  }

  lemma DeletedNext(pods: map<string, string>, listed: set<string>, n: string, i: Input)
    ensures pods - Deleted(listed + {n}, i) ==
            if n in i.stale && n !in i.undeleted then pods - Deleted(listed, i) - {n} else pods - Deleted(listed, i)
  {
    assert Deleted(listed + {n}, i) ==
           Deleted(listed, i) + if n in i.stale && n !in i.undeleted then {n} else {};
  }

  lemma UnattachedNext(pods: set<string>, n: string, stale: set<string>, hosts: seq<string>, late: set<string>)
    requires n !in pods
    ensures var was, now := Unattached(pods, stale, hosts), Unattached(pods + {n}, stale, hosts);
            if n !in stale && !InNoobaa(hosts, n) then
              && |now| == |was| + 1 && |now * late| == |was * late| + if n in late then 1 else 0
            else now == was
  {
    var was, now := Unattached(pods, stale, hosts), Unattached(pods + {n}, stale, hosts);
    if n !in stale && !InNoobaa(hosts, n) {
      assert now == was + {n};
      assert now * late == if n in late then was * late + {n} else was * late;
    } else {
      assert now == was;
    }
  }

  lemma LateCount(unattached: set<string>, late: set<string>)
    ensures |unattached * late| == |unattached| <==> unattached <= late
  {
    SubsetCount(unattached * late, unattached);
    if unattached <= late {
      assert unattached * late == unattached;
    } else {
      var n :| n in unattached && n !in late;
      assert n in unattached - unattached * late;
    }
  }

  /**
   What a healthy report says: NumVolumes of the listed pods are attached or stale, even though the
   stale ones have just been deleted.
   */
  lemma HealthyIff(p: Pool, i: Input)
    ensures var listed := p.pods.Keys;
            Assess(listed, Unattached(listed, i.stale, i.hosts), i.late, i.numVolumes).Healthy? <==>
            |set n | n in listed && (n in i.stale || InNoobaa(i.hosts, n))| >= i.numVolumes
  {
    var listed := p.pods.Keys;
    var counted := set n | n in listed && (n in i.stale || InNoobaa(i.hosts, n));
    SubsetCount(counted, listed);
    assert listed - counted == Unattached(listed, i.stale, i.hosts);
  }

  /** The pods that are attached and still there after the reconcile. */
  function Serving(p: Pool, i: Input): set<string> {
    set n | n in p.pods && InNoobaa(i.hosts, n) && n !in Gone(p, i)
  }

  /** The stale pods that are gone or were never attached. */
  function Lost(p: Pool, i: Input): set<string> {
    set n | n in p.pods && n in i.stale && (n in Gone(p, i) || !InNoobaa(i.hosts, n))
  }

  /** Exactly when a reconcile reports a healthy pool that serves fewer than NumVolumes: stale pods make up for it. */
  lemma HealthyButShortIff(p: Pool, i: Input)
    ensures var report := Assess(p.pods.Keys, Unattached(p.pods.Keys, i.stale, i.hosts), i.late, i.numVolumes);
            report.Healthy? && |Serving(p, i)| < i.numVolumes <==>
            |Serving(p, i)| < i.numVolumes <= |Serving(p, i)| + |Lost(p, i)|
  {
    HealthyIff(p, i);
    var counted := set n | n in p.pods.Keys && (n in i.stale || InNoobaa(i.hosts, n));
    SubsetCount(Serving(p, i), counted);
    assert counted - Serving(p, i) == Lost(p, i);
  }

  /** Which error it is otherwise: too few pods listed, or all those not attached are old, or some are still young. */
  lemma ReportIs(p: Pool, i: Input)
    ensures var listed, r := p.pods.Keys,
                             Assess(p.pods.Keys, Unattached(p.pods.Keys, i.stale, i.hosts), i.late, i.numVolumes);
            && (r.NotStarted? <==> |listed| < i.numVolumes)
            && (r.FailedAttaching? <==>
                  && |listed| >= i.numVolumes && !r.Healthy?
                  && forall n :: n in listed && n !in i.stale && !InNoobaa(i.hosts, n) ==> n in i.late)
            && (r.StillConnecting? ==>
                  exists n :: n in listed && n !in i.stale && !InNoobaa(i.hosts, n) && n !in i.late)
  {
    var unattached := Unattached(p.pods.Keys, i.stale, i.hosts);
    if !(unattached <= i.late) {
      var n :| n in unattached && n !in i.late;
      assert n in p.pods.Keys && n !in i.stale && !InNoobaa(i.hosts, n) && n !in i.late;
    }
  }

  /** The smallest case: the only pod is stale, is deleted, and the pool is reported healthy. */
  lemma HealthyWhileEmpty(o: Owner, claim: string, i: Input)
    requires i.numVolumes == 1 && i.stale == {PodName(o, claim)} && i.undeleted == {}
    ensures var p := Pool(map[PodName(o, claim) := claim], {claim});
            End(o, p, i) == Reported(Healthy) && Reconcile(o, p, i) == Pool(map[], {claim})
  {
    var p := Pool(map[PodName(o, claim) := claim], {claim});
    assert p.pods.Keys == {PodName(o, claim)} && |p.pods| == |p.pods.Keys|;
    assert Unattached(p.pods.Keys, i.stale, i.hosts) == {};
    assert p.pods - Gone(p, i) == map[];
  }

  class PoolReconciler {
    const owner: Owner
    var pool: Pool

    method ReconcileMissingPvcs(draws: seq<string>, failing: set<string>)
      modifies this
      ensures pool == old(pool).(claims := AddClaims(owner, old(pool).claims, draws, failing))
    {
      var claims := pool.claims;
      for i := 0 to |draws|
        invariant AddClaims(owner, pool.claims, draws, failing) == AddClaims(owner, claims, draws[i..], failing)
      {
        assert draws[i..][1..] == draws[i + 1..];
        var name := ClaimName(owner, draws[i]);
        if name !in failing {
          claims := claims + {name};
        }
      }
      pool := pool.(claims := claims);
    }

    method ReconcileMissingPods(listed: seq<string>, failing: set<string>)
      modifies this
      ensures pool == old(pool).(pods := AddPods(owner, old(pool).pods, old(pool).pods.Values, listed, failing))
    {
      var used, pods := pool.pods.Values, pool.pods;
      for i := 0 to |listed|
        invariant AddPods(owner, pool.pods, used, listed, failing) == AddPods(owner, pods, used, listed[i..], failing)
      {
        assert listed[i..][1..] == listed[i + 1..];
        if listed[i] !in used {
          var name := PodName(owner, listed[i]);
          if name !in pods && name !in failing {
            pods := pods[name := listed[i]];
          }
        }
      }
      pool := pool.(pods := pods);
    }

    /** The loop of reconcileExistingPods: delete the stale pods and count those of the others not attached. */
    method CheckPods(listed: seq<string>, i: Input) returns (noneAttaching: nat, failedAttaching: nat)
      requires NoRepeats(listed)
      modifies this
      ensures pool == old(pool).(pods := old(pool).pods - Deleted(Elements(listed), i))
      ensures var unattached := Unattached(Elements(listed), i.stale, i.hosts);
              noneAttaching == |unattached| && failedAttaching == |unattached * i.late|
    {
      var pods := pool.pods;
      noneAttaching, failedAttaching := 0, 0;
      ghost var seen: set<string> := {};
      for k := 0 to |listed|
        invariant pool == old(pool) && seen == Elements(listed[..k]) && pods == pool.pods - Deleted(seen, i)
        invariant noneAttaching == |Unattached(seen, i.stale, i.hosts)|
        invariant failedAttaching == |Unattached(seen, i.stale, i.hosts) * i.late|
      {
        var n := listed[k];
        ElementsNext(listed, k);
        DeletedNext(pool.pods, seen, n, i);
        UnattachedNext(seen, n, i.stale, i.hosts, i.late);
        seen := seen + {n};
        if n in i.stale {
          if n !in i.undeleted {
            pods := pods - {n};
          }
        } else if !InNoobaa(i.hosts, n) {
          noneAttaching := noneAttaching + 1;
          if n in i.late {
            failedAttaching := failedAttaching + 1;
          }
        }
      }
      assert listed[..|listed|] == listed;
      pool := pool.(pods := pods);
    }

    /** reconcileExistingPods over the pods listed at the start. */
    method ReconcileExistingPods(listed: seq<string>, i: Input) returns (r: Report)
      requires NoRepeats(listed)
      modifies this
      ensures pool == old(pool).(pods := old(pool).pods - Deleted(Elements(listed), i))
      ensures r == Assess(Elements(listed), Unattached(Elements(listed), i.stale, i.hosts), i.late, i.numVolumes)
    {
      var noneAttaching, failedAttaching := CheckPods(listed, i);
      ElementsCount(listed);
      LateCount(Unattached(Elements(listed), i.stale, i.hosts), i.late);
      if |listed| < i.numVolumes { return NotStarted(|listed|); }
      var attached := |listed| - noneAttaching;
      if attached < i.numVolumes {
        if failedAttaching == noneAttaching { return FailedAttaching(failedAttaching); }
        return StillConnecting(noneAttaching);
      }
      return Healthy;
    }

    /** reconcilePvPool; `podsList` is the listing of the pods it starts from. */
    method ReconcilePvPool(i: Input, podsList: seq<string>) returns (r: Ending)
      requires NoRepeats(podsList) && forall n :: n in podsList <==> n in pool.pods
      modifies this
      ensures pool == Reconcile(owner, old(pool), i) && r == End(owner, old(pool), i)
    {
      if |pool.claims| < i.numVolumes {
        ReconcileMissingPvcs(i.draws, i.failing);
      }
      if |pool.pods| < |pool.claims| {
        if !i.templateOk { return NoTemplate; }
        ReconcileMissingPods(i.listed, i.failing);
      }
      assert Elements(podsList) == old(pool).pods.Keys;
      var report := ReconcileExistingPods(podsList, i);
      return Reported(report);
    }
  }

  // ---------------------------------------------------------------- what every step keeps

  /** All claims are generated ones and every pod is named after its claim, which exists. */
  predicate Valid(o: Owner, p: Pool) {
    && (forall c :: c in p.claims ==> Generated(o, c))
    && (forall n :: n in p.pods ==> p.pods[n] in p.claims && n == PodName(o, p.pods[n]))
  }

  lemma ValidIsDistinct(o: Owner, p: Pool)
    requires Valid(o, p)
    ensures DistinctClaims(p) && p.pods.Values <= p.claims
  {
  }

  lemma {:induction false} ClaimsKept(o: Owner, claims: set<string>, draws: seq<string>, failing: set<string>)
    requires NoDash(draws) && forall c :: c in claims ==> Generated(o, c)
    ensures var r := AddClaims(o, claims, draws, failing);
            claims <= r && |r| <= |claims| + |draws| && forall c :: c in r ==> Generated(o, c)
    decreases draws
  {
    if draws != [] {
      var name := ClaimName(o, draws[0]);
      ClaimGenerated(o, draws[0]);
      var next := if name in failing then claims else claims + {name};
      ClaimsKept(o, next, draws[1..], failing);
    }
  }

  /** Some draw makes claim `c`, and its create does not fail. */
  predicate Drawn(o: Owner, draws: seq<string>, failing: set<string>, c: string) {
    c !in failing && exists k :: 0 <= k < |draws| && c == ClaimName(o, draws[k])
  }

  /** Creating claims adds exactly those drawn whose create does not fail. */
  lemma {:induction false} ClaimsExact(o: Owner, claims: set<string>, draws: seq<string>, failing: set<string>,
                                       c: string)
    ensures c in AddClaims(o, claims, draws, failing) <==> c in claims || Drawn(o, draws, failing, c)
    decreases draws
  {
    if draws != [] {
      var name := ClaimName(o, draws[0]);
      var next := if name in failing then claims else claims + {name};
      ClaimsExact(o, next, draws[1..], failing, c);
      if Drawn(o, draws, failing, c) && c != name {
        var k :| 0 <= k < |draws| && c == ClaimName(o, draws[k]);
        assert draws[1..][k - 1] == draws[k];
      }
      if Drawn(o, draws[1..], failing, c) {
        var k :| 0 <= k < |draws[1..]| && c == ClaimName(o, draws[1..][k]);
        assert draws[k + 1] == draws[1..][k];
      }
    }
  }

  lemma ClaimNamesDiffer(o: Owner, a: string, b: string)
    ensures ClaimName(o, a) == ClaimName(o, b) <==> a == b
  {
    var prefix := o.store + "-" + o.system + "-pvc-";
    assert ClaimName(o, a)[|prefix|..] == a && ClaimName(o, b)[|prefix|..] == b;
  }

  /** The random names are new and all different, and no create fails. */
  predicate FreshDraws(o: Owner, claims: set<string>, draws: seq<string>, failing: set<string>) {
    NoRepeats(draws)
    && forall k :: 0 <= k < |draws| ==> ClaimName(o, draws[k]) !in claims && ClaimName(o, draws[k]) !in failing
  }

  /** Then every draw makes a claim. */
  lemma {:induction false} ClaimsCount(o: Owner, claims: set<string>, draws: seq<string>, failing: set<string>)
    requires FreshDraws(o, claims, draws, failing)
    ensures |AddClaims(o, claims, draws, failing)| == |claims| + |draws|
    decreases draws
  {
    if draws != [] {
      var name, rest := ClaimName(o, draws[0]), draws[1..];
      forall k | 0 <= k < |rest|
        ensures ClaimName(o, rest[k]) !in claims + {name} && ClaimName(o, rest[k]) !in failing
      {
        assert rest[k] == draws[k + 1];
        ClaimNamesDiffer(o, rest[k], draws[0]);
      }
      ClaimsCount(o, claims + {name}, rest, failing);
    }
  }

  /** A reconcile brings the claims up to NumVolumes, with exactly the names drawn. */
  lemma ClaimsReached(o: Owner, p: Pool, i: Input, c: string)
    requires InputOk(o, p, i)
    ensures var claims := Reconcile(o, p, i).claims;
            && (c in claims <==> c in p.claims || (|p.claims| < i.numVolumes && Drawn(o, i.draws, i.failing, c)))
            && (FreshDraws(o, p.claims, i.draws, i.failing) ==>
                  |claims| == if |p.claims| < i.numVolumes then i.numVolumes else |p.claims|)
  {
    ClaimsExact(o, p.claims, i.draws, i.failing, c);
    if FreshDraws(o, p.claims, i.draws, i.failing) { ClaimsCount(o, p.claims, i.draws, i.failing); }
  }

  lemma {:induction false} PodsKept(o: Owner, pods: map<string, string>, used: set<string>, listed: seq<string>,
                                    failing: set<string>, claims: set<string>)
    requires Valid(o, Pool(pods, claims)) && forall c :: c in listed ==> c in claims
    ensures Valid(o, Pool(AddPods(o, pods, used, listed, failing), claims))
    ensures forall n :: n in pods ==>
        n in AddPods(o, pods, used, listed, failing) && AddPods(o, pods, used, listed, failing)[n] == pods[n]
    decreases listed
  {
    if listed != [] {
      var claim, name := listed[0], PodName(o, listed[0]);
      assert claim in listed;
      var next := if claim in used || name in pods || name in failing then pods else pods[name := claim];
      assert forall c :: c in listed[1..] ==> c in listed;
      PodsKept(o, next, used, listed[1..], failing, claims);
    }
  }

  /** Whatever a reconcile creates or fails to create, the pool stays valid and no claim is made beyond NumVolumes. */
  lemma ReconcileKeeps(o: Owner, p: Pool, i: Input)
    requires Valid(o, p) && InputOk(o, p, i)
    ensures Valid(o, Reconcile(o, p, i))
    ensures p.claims <= Reconcile(o, p, i).claims
    ensures |Reconcile(o, p, i).claims| <= if |p.claims| < i.numVolumes then i.numVolumes else |p.claims|
  {
    ClaimsKept(o, p.claims, i.draws, i.failing);
    var claims := Claims(o, p, i);
    assert Valid(o, Pool(p.pods, claims));
    PodsKept(o, p.pods, p.pods.Values, i.listed, i.failing, claims);
    var pods := if |p.pods| < |claims| then AddPods(o, p.pods, p.pods.Values, i.listed, i.failing) else p.pods;
    assert Valid(o, Pool(pods, claims));
  }

  /** When its create does not fail, every listed claim that was unused has its pod afterwards. */
  lemma {:induction false} PodAdded(o: Owner, pods: map<string, string>, used: set<string>, listed: seq<string>,
                                    failing: set<string>,
                                    claims: set<string>, claim: string)
    requires Valid(o, Pool(pods, claims)) && (forall c :: c in listed ==> c in claims)
    requires claim in listed && claim !in used && PodName(o, claim) !in failing
    ensures var r := AddPods(o, pods, used, listed, failing); PodName(o, claim) in r && r[PodName(o, claim)] == claim
    decreases listed
  {
    var head, name := listed[0], PodName(o, listed[0]);
    var next := if head in used || name in pods || name in failing then pods else pods[name := head];
    assert head in listed && forall c :: c in listed[1..] ==> c in listed;
    if head == claim {
      if name in pods { PodNamesDistinct(o, claim, pods[name]); }
      assert Valid(o, Pool(next, claims));
      PodsKept(o, next, used, listed[1..], failing, claims);
    } else {
      PodAdded(o, next, used, listed[1..], failing, claims, claim);
    }
  }

  /** A claim that was unused and whose create fails has no pod, whatever happens to the others. */
  lemma {:induction false} PodMissing(o: Owner, pods: map<string, string>, used: set<string>, listed: seq<string>,
                                      failing: set<string>, name: string)
    requires name !in pods && name in failing
    ensures name !in AddPods(o, pods, used, listed, failing)
    decreases listed
  {
    if listed != [] {
      var head := PodName(o, listed[0]);
      PodMissing(o, if listed[0] in used || head in pods || head in failing then pods else pods[head := listed[0]],
          used, listed[1..], failing, name);
    }
  }

  /**
   Which claims have a pod after a reconcile that can build pods, whatever fails: a pod that was there
   stays unless it is stale and deleted, and a claim without one gets it exactly if its create works.
   */
  lemma PodsReached(o: Owner, p: Pool, i: Input, c: string)
    requires Valid(o, p) && InputOk(o, p, i) && i.templateOk && c in Claims(o, p, i)
    ensures PodName(o, c) in Reconcile(o, p, i).pods <==>
            if c in p.pods.Values then PodName(o, c) !in i.stale || PodName(o, c) in i.undeleted
            else PodName(o, c) !in i.failing
  {
    ClaimsKept(o, p.claims, i.draws, i.failing);
    assert Valid(o, Pool(p.pods, Claims(o, p, i)));
    if c in p.pods.Values {
      MountedStays(o, p, i, c);
    } else {
      UnmountedGets(o, p, i, c);
    }
  }

  lemma MountedStays(o: Owner, p: Pool, i: Input, c: string)
    requires Valid(o, Pool(p.pods, Claims(o, p, i))) && InputOk(o, p, i) && i.templateOk && c in p.pods.Values
    ensures PodName(o, c) in Reconcile(o, p, i).pods <==> PodName(o, c) !in Gone(p, i)
  {
    var n :| n in p.pods && p.pods[n] == c;
    PodsKept(o, p.pods, p.pods.Values, i.listed, i.failing, Claims(o, p, i));
  }

  lemma GuardFires(o: Owner, p: Pool, c: string)
    requires Valid(o, p) && c in p.claims && c !in p.pods.Values
    ensures |p.pods| < |p.claims|
  {
    assert Lacking(p);
    ValidIsDistinct(o, p);
    GuardExact(p);
  }

  lemma UnmountedGets(o: Owner, p: Pool, i: Input, c: string)
    requires Valid(o, Pool(p.pods, Claims(o, p, i))) && InputOk(o, p, i) && i.templateOk
    requires c in Claims(o, p, i) && c !in p.pods.Values
    ensures PodName(o, c) in Reconcile(o, p, i).pods <==> PodName(o, c) !in i.failing
  {
    var p1, name := Pool(p.pods, Claims(o, p, i)), PodName(o, c);
    if name in p.pods { PodNamesDistinct(o, c, p.pods[name]); }
    GuardFires(o, p1, c);
    if name in i.failing {
      PodMissing(o, p.pods, p.pods.Values, i.listed, i.failing, name);
    } else {
      PodAdded(o, p.pods, p.pods.Values, i.listed, i.failing, p1.claims, c);
    }
  }

  /** Without a template no pod is created or deleted, if one was needed; otherwise it does not matter. */
  lemma NoTemplateNoPods(o: Owner, p: Pool, i: Input)
    requires !i.templateOk
    ensures var q := Reconcile(o, p, i);
            && q.claims == Reconcile(o, p, i.(templateOk := true)).claims
            && q.pods == if |p.pods| < |q.claims| then p.pods else Reconcile(o, p, i.(templateOk := true)).pods
    ensures End(o, p, i).NoTemplate? <==> |p.pods| < |Reconcile(o, p, i).claims|
  {
  }

  /** Every claim has exactly one pod, the one named after it, and every pod has a claim. */
  predicate OneToOne(o: Owner, p: Pool) {
    && Valid(o, p)
    && forall c :: c in p.claims ==> PodName(o, c) in p.pods && p.pods[PodName(o, c)] == c
  }

  /** The same, but for the pods named in `gone`, which are not there. */
  predicate MatchedExcept(o: Owner, p: Pool, gone: set<string>) {
    && Valid(o, p)
    && forall c :: c in p.claims ==>
         if PodName(o, c) in gone then PodName(o, c) !in p.pods
         else PodName(o, c) in p.pods && p.pods[PodName(o, c)] == c
  }

  /** Creating the missing pods, when all creates succeed, gives every claim its pod. */
  lemma CreatedMatches(o: Owner, p: Pool, i: Input)
    requires Valid(o, p) && InputOk(o, p, i)
    requires forall c :: c in Claims(o, p, i) ==> PodName(o, c) !in i.failing
    ensures var claims := Claims(o, p, i);
            var pods := if |p.pods| < |claims| then AddPods(o, p.pods, p.pods.Values, i.listed, i.failing) else p.pods;
            OneToOne(o, Pool(pods, claims))
  {
    var claims := Claims(o, p, i);
    var pods := if |p.pods| < |claims| then AddPods(o, p.pods, p.pods.Values, i.listed, i.failing) else p.pods;
    ClaimsKept(o, p.claims, i.draws, i.failing);
    var p1 := Pool(p.pods, claims);
    assert Valid(o, p1);
    ValidIsDistinct(o, p1);
    GuardExact(p1);
    PodsKept(o, p.pods, p.pods.Values, i.listed, i.failing, claims);
    forall c | c in claims ensures PodName(o, c) in pods && pods[PodName(o, c)] == c {
      if c in p.pods.Values {
        var n :| n in p.pods && p.pods[n] == c;
      } else {
        assert Lacking(p1);
        PodAdded(o, p.pods, p.pods.Values, i.listed, i.failing, claims, c);
      }
    }
  }

  /**
   PV-pool matching: a reconcile whose pods can be built and created ends with every claim matched
   one-to-one, except for exactly those whose listed pod was stale and has just been deleted.
   */
  lemma ReconcileMatches(o: Owner, p: Pool, i: Input)
    requires Valid(o, p) && InputOk(o, p, i) && i.templateOk
    requires forall c :: c in Claims(o, p, i) ==> PodName(o, c) !in i.failing
    ensures MatchedExcept(o, Reconcile(o, p, i), Gone(p, i))
  {
    CreatedMatches(o, p, i);
    ReconcileKeeps(o, p, i);
  }

  // ---------------------------------------------------------------- runs

  /** Between reconciles pods go away, and claims go away once no pod mounts them. */
  datatype Event = Run(input: Input) | PodGone(name: string) | ClaimGone(claim: string)

  function Apply(o: Owner, p: Pool, e: Event): Pool {
    match e
    case Run(input) => if InputOk(o, p, input) then Reconcile(o, p, input) else p
    case PodGone(name) => p.(pods := p.pods - {name})
    case ClaimGone(claim) => if claim in p.pods.Values then p else p.(claims := p.claims - {claim})
  }

  function RunAll(o: Owner, p: Pool, events: seq<Event>): Pool
    decreases events
  {
    if events == [] then p else RunAll(o, Apply(o, p, events[0]), events[1..])
  }

  lemma {:induction false} RunKeeps(o: Owner, p: Pool, events: seq<Event>)
    requires Valid(o, p)
    ensures Valid(o, RunAll(o, p, events))
    decreases events
  {
    if events != [] {
      match events[0] {
        case Run(input) => if InputOk(o, p, input) { ReconcileKeeps(o, p, input); }
        case PodGone(_) =>
        case ClaimGone(_) =>
      }
      RunKeeps(o, Apply(o, p, events[0]), events[1..]);
    }
  }

  /**
   In every run from an empty pool the count guard is exact, and the next reconcile that can create
   its pods and finds none stale restores the one-to-one match, on NumVolumes claims or more if it can
   create those too.
   */
  lemma PoolRecovers(o: Owner, events: seq<Event>, i: Input)
    requires var p := RunAll(o, Pool(map[], {}), events);
             && InputOk(o, p, i) && i.templateOk && Gone(p, i) == {}
             && forall c :: c in Claims(o, p, i) ==> PodName(o, c) !in i.failing
    ensures var p := RunAll(o, Pool(map[], {}), events);
            (|p.pods| < |p.claims| <==> Lacking(p)) && OneToOne(o, Reconcile(o, p, i))
    ensures var p := RunAll(o, Pool(map[], {}), events);
            FreshDraws(o, p.claims, i.draws, i.failing) ==> |Reconcile(o, p, i).claims| >= i.numVolumes
  {
    var p := RunAll(o, Pool(map[], {}), events);
    RunKeeps(o, Pool(map[], {}), events);
    ValidIsDistinct(o, p);
    GuardExact(p);
    ReconcileMatches(o, p, i);
    ClaimsReached(o, p, i, "");
  }

  /** So an empty pool that can create everything ends up with exactly NumVolumes matched claims. */
  lemma PoolFills(o: Owner, i: Input)
    requires InputOk(o, Pool(map[], {}), i) && i.templateOk && i.numVolumes >= 0
    requires FreshDraws(o, {}, i.draws, i.failing)
    requires forall c :: c in Claims(o, Pool(map[], {}), i) ==> PodName(o, c) !in i.failing
    ensures var p := Reconcile(o, Pool(map[], {}), i);
            OneToOne(o, p) && |p.claims| == i.numVolumes && |p.pods| == i.numVolumes
  {
    var empty := Pool(map[], {});
    assert Gone(empty, i) == {} && RunAll(o, empty, []) == empty;
    PoolRecovers(o, [], i);
    ClaimsReached(o, empty, i, "");
    var p := Reconcile(o, empty, i);
    ValidIsDistinct(o, p);
    ValuesCount(p.pods);
    assert p.pods.Values == p.claims by {
      forall c | c in p.claims ensures c in p.pods.Values { assert p.pods[PodName(o, c)] == c; }
    }
  }
}
