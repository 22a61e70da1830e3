/**
 The agent pod of a PV pool: how it is built from the specifications, and the test that decides
 whether a running pod is stale and must be deleted.

 A Kubernetes toleration holds a pointer to its seconds, so Go's `==` on two tolerations with seconds
 is true only for one and the same pointer, which a pod read back from the API server never shares.
 An empty list and a missing one are the same once a pod has been stored.
 */
module PodTemplate {
  import opened Wrappers

  // ---------------------------------------------------------------- values

  datatype EnvVar = EnvVar(name: string, value: string)

  /** Quantities of named resources. */
  type ResourceList = map<string, int>

  const CPU := "cpu"
  const MEMORY := "memory"

  datatype Resources = Resources(requests: ResourceList, limits: ResourceList)

  /** PVPool.VolumeResources; each list may be nil. */
  datatype Overrides = Overrides(requests: Option<ResourceList>, limits: Option<ResourceList>)

  datatype Toleration = Toleration(key: string, operator: string, value: string, effect: string, seconds: Option<int>)

  datatype Affinity = Affinity(node: Option<string>, pod: Option<string>, antiPod: Option<string>)

  datatype Pod = Pod(env: seq<EnvVar>, image: string, labels: map<string, string>, pullSecrets: seq<string>,
                     tolerations: seq<Toleration>,
                     affinity: Option<Affinity>, priorityClass: string, automount: Option<bool>, resources: Resources)

  /**
   What both the builder and the test read; `serviceAccount` holds the pull secrets of the pod's
   service account, if that exists.
   */
  datatype Specs = Specs(os: map<string, string>, config: map<string, string>, image: string, pool: string,
                         storeLabel: Option<string>,
                         pullSecret: Option<string>, serviceAccount: Option<seq<string>>,
                         tolerations: Option<seq<Toleration>>, affinity: Option<Affinity>,
                         priorityClass: string, profile: Resources, overrides: Option<Overrides>)

  /** Reading a Go map: a missing key is the empty string. */
  function Read(m: map<string, string>, k: string): string {
    if k in m then m[k] else ""
  }

  function Find<T>(m: map<string, T>, k: string): Option<T> {
    if k in m then Some(m[k]) else None
  }

  // ---------------------------------------------------------------- environment

  predicate UniqueNames(env: seq<EnvVar>) {
    forall i, j :: 0 <= i < j < |env| ==> env[i].name != env[j].name
  }

  /** GetEnvVariable: the first variable of that name. */
  function Lookup(env: seq<EnvVar>, name: string): Option<string> {
    if env == [] then None
    else if env[0].name == name then Some(env[0].value)
    else Lookup(env[1..], name)
  }

  /** ReflectEnvVariable: make the first variable `name` hold `val`, append it, or remove it. */
  function Reflect(env: seq<EnvVar>, name: string, val: Option<string>): seq<EnvVar> {
    if env == [] then (if val.Some? then [EnvVar(name, val.value)] else [])
    else if env[0].name == name then (if val.Some? then [EnvVar(name, val.value)] else []) + env[1..]
    else [env[0]] + Reflect(env[1..], name, val)
  }

  /** The first loop of updatePodTemplate: every variable of that name takes the configured value. */
  function Assign(env: seq<EnvVar>, name: string, val: string): (r: seq<EnvVar>)
    ensures |r| == |env| && forall i :: 0 <= i < |r| ==>
        r[i] == if env[i].name == name then EnvVar(name, val) else env[i]
  {
    if env == [] then [] else [if env[0].name == name then EnvVar(name, val) else env[0]] + Assign(env[1..], name, val)
  }

  lemma {:induction false} LookupAbsent(env: seq<EnvVar>, name: string)
    ensures Lookup(env, name).None? <==> forall i :: 0 <= i < |env| ==> env[i].name != name
  {
    if env != [] {
      LookupAbsent(env[1..], name);
      if env[0].name != name {
        assert forall i :: 0 < i < |env| ==> env[i] == env[1..][i - 1];
      }
    }
  }

  lemma {:induction false} ReflectLookup(env: seq<EnvVar>, name: string, val: Option<string>, other: string)
    requires UniqueNames(env)
    ensures Lookup(Reflect(env, name, val), other) == if other == name then val else Lookup(env, other)
  {
    var r := Reflect(env, name, val);
    if env == [] {
    } else if env[0].name == name {
      LookupAbsent(env[1..], name);
      if val.None? { assert r == env[1..]; } else { assert r[1..] == env[1..]; }
    } else {
      assert UniqueNames(env[1..]);
      ReflectLookup(env[1..], name, val, other);
      assert r[1..] == Reflect(env[1..], name, val);
    }
  }

  lemma UniqueCons(head: EnvVar, tail: seq<EnvVar>)
    requires UniqueNames(tail) && Lookup(tail, head.name).None?
    ensures UniqueNames([head] + tail)
  {
    LookupAbsent(tail, head.name);
  }

  lemma {:induction false} ReflectUnique(env: seq<EnvVar>, name: string, val: Option<string>)
    requires UniqueNames(env)
    ensures UniqueNames(Reflect(env, name, val))
  {
    if env != [] {
      LookupAbsent(env[1..], env[0].name);
      assert UniqueNames(env[1..]);
      if env[0].name == name {
        if val.Some? { UniqueCons(EnvVar(name, val.value), env[1..]); }
      } else {
        ReflectUnique(env[1..], name, val);
        ReflectLookup(env[1..], name, val, env[0].name);
        UniqueCons(env[0], Reflect(env[1..], name, val));
      }
    }
  }

  lemma {:induction false} ReflectSplit(env: seq<EnvVar>, i: nat, name: string, val: Option<string>)
    requires i <= |env| && forall j :: 0 <= j < i ==> env[j].name != name
    ensures Reflect(env, name, val) == env[..i] + Reflect(env[i..], name, val)
  {
    if i == 0 {
      assert env[0..] == env;
    } else {
      var tail, rest := env[1..], env[i..];
      ReflectSplit(tail, i - 1, name, val);
      assert tail[i - 1..] == rest;
      SplitCons(env[0], tail[..i - 1], Reflect(rest, name, val));
      assert [env[0]] + tail[..i - 1] == env[..i];
    }
  }

  lemma SplitCons(head: EnvVar, a: seq<EnvVar>, b: seq<EnvVar>)
    ensures [head] + (a + b) == ([head] + a) + b
  {
  }

  /** ReflectEnvVariable in place: scan for the name, then overwrite, append or cut. */
  method ReflectEnvVariable(env: seq<EnvVar>, name: string, val: Option<string>) returns (r: seq<EnvVar>)
    ensures r == Reflect(env, name, val)
  {
    var i := 0;
    while i < |env| && env[i].name != name
      invariant i <= |env| && forall j :: 0 <= j < i ==> env[j].name != name
    {
      i := i + 1;
    }
    ReflectSplit(env, i, name, val);
    var tail := if i < |env| then env[i + 1..] else [];
    r := env[..i] + (if val.Some? then [EnvVar(name, val.value)] else []) + tail;
    assert i < |env| ==> tail == env[i..][1..];
  }

  /** The loop of updatePodTemplate over the container's variables. */
  method UpdateLogEnv(env: array<EnvVar>, level: string, color: string)
    modifies env
    ensures env[..] == Assign(Assign(old(env[..]), LOG_LEVEL, level), LOG_COLOR, color)
  {
    ghost var want := Assign(Assign(env[..], LOG_LEVEL, level), LOG_COLOR, color);
    for j := 0 to env.Length
      invariant forall i :: 0 <= i < j ==> env[i] == want[i]
      invariant forall i :: j <= i < env.Length ==> env[i] == old(env[i])
    {
      if env[j].name == LOG_LEVEL {
        env[j] := env[j].(value := level);
      } else if env[j].name == LOG_COLOR {
        env[j] := env[j].(value := color);
      }
    }
  }

  // ---------------------------------------------------------------- resources

  /** One list of applyResourceOverrides: only CPU and memory are taken over. */
  function Override(dst: ResourceList, src: Option<ResourceList>): ResourceList {
    if src.None? then dst
    else dst + map k | k in src.value && (k == CPU || k == MEMORY) :: src.value[k]
  }

  function PodResources(profile: Resources, o: Option<Overrides>): Resources {
    if o.None? then profile
    else Resources(Override(profile.requests, o.value.requests), Override(profile.limits, o.value.limits))
  }

  /** validateResourceRequestsVsLimits. */
  predicate ResourcesValid(r: Resources) {
    forall k :: (k == CPU || k == MEMORY) && k in r.requests && k in r.limits ==> r.requests[k] <= r.limits[k]
  }

  function Quantity(m: ResourceList, k: string): int {
    if k in m then m[k] else 0
  }

  /** compareResourceList: true when an override is not what the container has. */
  predicate Differs(wanted: Option<ResourceList>, container: ResourceList) {
    && wanted.Some?
    && exists k ::
      (k == CPU || k == MEMORY) && k in wanted.value && wanted.value[k] != Quantity(container, k)
  }

  predicate ResourcesStale(o: Option<Overrides>, r: Resources) {
    o.Some? && (Differs(o.value.requests, r.requests) || Differs(o.value.limits, r.limits))
  }

  /** With any profile and any overrides, the built resources satisfy the overrides. */
  lemma OverridesHonoured(profile: Resources, o: Option<Overrides>)
    ensures !ResourcesStale(o, PodResources(profile, o))
  {
  }

  // ---------------------------------------------------------------- tolerations

  /** Under a NoExecute taint `ss` lets the pod stay at least as long as `t`; without seconds it stays for good. */
  predicate Outlasts(ss: Toleration, t: Toleration) {
    ss.seconds.None? || (t.seconds.Some? && t.seconds.value <= ss.seconds.value)
  }

  predicate IsSuperset(ss: Toleration, t: Toleration) {
    // Go's ==, between a pod's toleration and the specification's.
    if ss == t && ss.seconds.None? then true
    else if t.key != ss.key && (ss.key != "" || ss.operator != "Exists") then false
    else if t.effect != ss.effect && ss.effect != "" then false
    else if ss.effect == "NoExecute" && !Outlasts(ss, t) then false
    else if ss.operator == "Equal" || ss.operator == "" then
      (t.operator == "Equal" || t.operator == "") && t.value == ss.value
    else ss.operator == "Exists"
  }

  predicate KnownOperator(t: Toleration) {
    t.operator == "Equal" || t.operator == "" || t.operator == "Exists"
  }

  /** The superset test is reflexive on copies exactly for a known operator or a toleration without seconds. */
  lemma ReflexiveIff(t: Toleration)
    ensures IsSuperset(t, t) <==> KnownOperator(t) || t.seconds.None?
  {
  }

  datatype Taint = Taint(key: string, value: string, effect: string)

  /** What a toleration means to the scheduler. */
  predicate Tolerates(t: Toleration, taint: Taint) {
    && (t.effect == "" || t.effect == taint.effect) && (t.key == "" || t.key == taint.key)
    && (t.operator == "Exists" || ((t.operator == "" || t.operator == "Equal") && t.value == taint.value))
  }

  /** The test is sound on what is tolerated: a superset tolerates every taint that the other does. */
  lemma SupersetSound(ss: Toleration, t: Toleration, taint: Taint)
    requires IsSuperset(ss, t) && Tolerates(t, taint)
    ensures Tolerates(ss, taint)
  {
  }

  /** Whatever `ss` is accepted for, and that faces a NoExecute taint, `ss` outlasts. */
  ghost predicate LastsForAll(ss: Toleration) {
    forall t :: IsSuperset(ss, t) && (t.effect == "" || t.effect == "NoExecute") ==> Outlasts(ss, t)
  }

  /**
   On how long it is not: the seconds are compared only for a superset whose own effect is NoExecute,
   so one without an effect is accepted although it may evict sooner.
   */
  lemma LastsForAllIff(ss: Toleration)
    ensures LastsForAll(ss) <==> ss.seconds.None? || ss.effect != "" || !KnownOperator(ss)
  {
    if ss.seconds.Some? && ss.effect == "" && KnownOperator(ss) {
      var longer := ss.(effect := "NoExecute", seconds := None);
      assert IsSuperset(ss, longer) && !Outlasts(ss, longer);
    }
  }

  predicate Covered(pod: seq<Toleration>, t: Toleration) {
    exists i :: 0 <= i < |pod| && IsSuperset(pod[i], t)
  }

  predicate AnyUncovered(ts: seq<Toleration>, pod: seq<Toleration>) {
    exists i :: 0 <= i < |ts| && !Covered(pod, ts[i])
  }

  predicate TolerationsStale(wanted: Option<seq<Toleration>>, pod: seq<Toleration>) {
    wanted.Some? && AnyUncovered(wanted.value, pod)
  }

  // ---------------------------------------------------------------- building

  const LOG_LEVEL := "NOOBAA_LOG_LEVEL"
  const LOG_COLOR := "NOOBAA_LOG_COLOR"

  const TEMPLATE_ENV := [EnvVar("CONTAINER_PLATFORM", "KUBERNETES"),
      EnvVar("AGENT_CONFIG_PATH", "/etc/agent-config/agent_config"),
                         EnvVar(LOG_LEVEL, ""), EnvVar(LOG_COLOR, "")]

  function PodLabel(s: Specs): string {
    if s.storeLabel.None? || s.storeLabel.value == "" then "noobaa" else s.storeLabel.value
  }

  function TolerationsOf(s: Specs): seq<Toleration> {
    if s.tolerations.Some? then s.tolerations.value else []
  }

  function BuildEnv(s: Specs): seq<EnvVar> {
    var logs := Assign(Assign(TEMPLATE_ENV, LOG_LEVEL, Read(s.config, LOG_LEVEL)), LOG_COLOR,
        Read(s.config, LOG_COLOR));
    var http := Reflect(logs, "HTTP_PROXY", Find(s.os, "HTTP_PROXY"));
    var https := Reflect(http, "HTTPS_PROXY", Find(s.os, "HTTPS_PROXY"));
    Reflect(https, "NO_PROXY", Find(s.os, "NO_PROXY"))
  }

  /** updatePodTemplate on the embedded template; None when the resources are refused. */
  function Build(s: Specs): Option<Pod> {
    var resources := PodResources(s.profile, s.overrides);
    if !ResourcesValid(resources) then None
    else
      Some(Pod(BuildEnv(s), s.image, map["app" := "noobaa", "pool" := s.pool, "backingstore" := PodLabel(s)],
               if s.pullSecret.None? then [] else [s.pullSecret.value],
               TolerationsOf(s), s.affinity, s.priorityClass, Some(false), resources))
  }

  // ---------------------------------------------------------------- staleness

  predicate ProxyStale(s: Specs, env: seq<EnvVar>, name: string) {
    Lookup(env, name) != Find(s.os, name)
  }

  predicate LogStale(s: Specs, env: seq<EnvVar>, name: string) {
    var v := Lookup(env, name);
    if v.None? then Read(s.config, name) != "" else v.value != Read(s.config, name)
  }

  predicate EnvStale(s: Specs, env: seq<EnvVar>) {
    || ProxyStale(s, env, "HTTP_PROXY") || ProxyStale(s, env, "HTTPS_PROXY") || ProxyStale(s, env, "NO_PROXY")
    || LogStale(s, env, LOG_LEVEL) || LogStale(s, env, LOG_COLOR)
  }

  /** The affinity test compares the specification with itself, so only its presence counts. */
  predicate AffinityStale(wanted: Option<Affinity>, pod: Option<Affinity>) {
    if wanted.Some? then pod.None? || wanted.value != wanted.value else pod.Some?
  }

  predicate LabelStale(s: Specs, labels: map<string, string>) {
    s.storeLabel.Some? && s.storeLabel.value != "" && Read(labels, "backingstore") != s.storeLabel.value
  }

  predicate SecretsStale(s: Specs, secrets: seq<string>) {
    if s.pullSecret.None? then s.serviceAccount.Some? && secrets != s.serviceAccount.value
    else secrets == [] || secrets[0] != s.pullSecret.value
  }

  /** Admission gives a pod that names no pull secret those of its service account. */
  function Admit(s: Specs, p: Pod): Pod {
    if p.pullSecrets == [] && s.serviceAccount.Some? then p.(pullSecrets := s.serviceAccount.value) else p
  }

  /** needUpdate. */
  predicate NeedUpdate(s: Specs, p: Pod) {
    || EnvStale(s, p.env) || LabelStale(s, p.labels) || p.image != s.image
    || ResourcesStale(s.overrides, p.resources)
    || p.automount != Some(false)
    || SecretsStale(s, p.pullSecrets)
    || TolerationsStale(s.tolerations, p.tolerations)
    || AffinityStale(s.affinity, p.affinity)
    || p.priorityClass != s.priorityClass
  }

  lemma {:induction false} LookupAt(env: seq<EnvVar>, i: nat)
    requires UniqueNames(env) && i < |env|
    ensures Lookup(env, env[i].name) == Some(env[i].value)
  {
    if i > 0 {
      assert env[0].name != env[i].name && UniqueNames(env[1..]);
      LookupAt(env[1..], i - 1);
    }
  }

  lemma AssignUnique(env: seq<EnvVar>, name: string, val: string)
    requires UniqueNames(env)
    ensures UniqueNames(Assign(env, name, val))
  {
  }

  lemma TemplateUnique()
    ensures UniqueNames(TEMPLATE_ENV)
  {
    assert |TEMPLATE_ENV[0].name| == 18 && |TEMPLATE_ENV[1].name| == 17 && |LOG_LEVEL| == |LOG_COLOR| == 16;
    assert LOG_LEVEL[11] == 'L' && LOG_COLOR[11] == 'C';
  }

  lemma LogsAssigned(s: Specs)
    ensures var logs := Assign(Assign(TEMPLATE_ENV, LOG_LEVEL, Read(s.config, LOG_LEVEL)), LOG_COLOR,
        Read(s.config, LOG_COLOR));
            && UniqueNames(logs)
            && Lookup(logs, LOG_LEVEL) == Some(Read(s.config, LOG_LEVEL))
            && Lookup(logs, LOG_COLOR) == Some(Read(s.config, LOG_COLOR))
  {
    var logs := Assign(Assign(TEMPLATE_ENV, LOG_LEVEL, Read(s.config, LOG_LEVEL)), LOG_COLOR,
        Read(s.config, LOG_COLOR));
    assert logs[2] == EnvVar(LOG_LEVEL, Read(s.config, LOG_LEVEL))
        && logs[3] == EnvVar(LOG_COLOR, Read(s.config, LOG_COLOR));
    TemplateUnique();
    AssignUnique(TEMPLATE_ENV, LOG_LEVEL, Read(s.config, LOG_LEVEL));
    AssignUnique(Assign(TEMPLATE_ENV, LOG_LEVEL, Read(s.config, LOG_LEVEL)), LOG_COLOR, Read(s.config, LOG_COLOR));
    LookupAt(logs, 2);
    LookupAt(logs, 3);
  }

  /** What the built environment holds of the variables the test looks at. */
  lemma BuiltEnvHolds(s: Specs)
    ensures var env := BuildEnv(s);
            && Lookup(env, LOG_LEVEL) == Some(Read(s.config, LOG_LEVEL))
            && Lookup(env, LOG_COLOR) == Some(Read(s.config, LOG_COLOR))
            && Lookup(env, "HTTP_PROXY") == Find(s.os, "HTTP_PROXY")
            && Lookup(env, "HTTPS_PROXY") == Find(s.os, "HTTPS_PROXY")
            && Lookup(env, "NO_PROXY") == Find(s.os, "NO_PROXY")
  {
    var level, color := Read(s.config, LOG_LEVEL), Read(s.config, LOG_COLOR);
    var logs := Assign(Assign(TEMPLATE_ENV, LOG_LEVEL, level), LOG_COLOR, color);
    var http := Reflect(logs, "HTTP_PROXY", Find(s.os, "HTTP_PROXY"));
    var https := Reflect(http, "HTTPS_PROXY", Find(s.os, "HTTPS_PROXY"));
    LogsAssigned(s);
    ReflectUnique(logs, "HTTP_PROXY", Find(s.os, "HTTP_PROXY"));
    ReflectUnique(http, "HTTPS_PROXY", Find(s.os, "HTTPS_PROXY"));
    BuiltEnvLookup(s, logs, http, https, LOG_LEVEL);
    BuiltEnvLookup(s, logs, http, https, LOG_COLOR);
    BuiltEnvLookup(s, logs, http, https, "HTTP_PROXY");
    BuiltEnvLookup(s, logs, http, https, "HTTPS_PROXY");
    BuiltEnvLookup(s, logs, http, https, "NO_PROXY");
  }

  lemma BuiltEnvLookup(s: Specs, logs: seq<EnvVar>, http: seq<EnvVar>, https: seq<EnvVar>, name: string)
    requires UniqueNames(logs) && UniqueNames(http) && UniqueNames(https)
    requires http == Reflect(logs, "HTTP_PROXY", Find(s.os, "HTTP_PROXY"))
    requires https == Reflect(http, "HTTPS_PROXY", Find(s.os, "HTTPS_PROXY"))
    ensures Lookup(Reflect(https, "NO_PROXY", Find(s.os, "NO_PROXY")), name) ==
            if name == "HTTP_PROXY" || name == "HTTPS_PROXY" || name == "NO_PROXY" then Find(s.os, name)
                else Lookup(logs, name)
  {
    ReflectLookup(logs, "HTTP_PROXY", Find(s.os, "HTTP_PROXY"), name);
    ReflectLookup(http, "HTTPS_PROXY", Find(s.os, "HTTPS_PROXY"), name);
    ReflectLookup(https, "NO_PROXY", Find(s.os, "NO_PROXY"), name);
  }

  // ---------------------------------------------------------------- from one specification to the next

  /** The quantity a pod built from `s` asks for or is limited to. */
  function Chosen(wanted: Option<ResourceList>, profile: ResourceList, k: string): Option<int> {
    if (k == CPU || k == MEMORY) && wanted.Some? && k in wanted.value then Some(wanted.value[k]) else Find(profile, k)
  }

  function OverridesOf(s: Specs): Overrides {
    if s.overrides.Some? then s.overrides.value else Overrides(None, None)
  }

  /** A CPU or memory override of the new list is not what the old specification came to. */
  predicate ListChanged(wanted: Option<ResourceList>, was: Option<ResourceList>, profile: ResourceList) {
    && wanted.Some?
    && exists k ::
      (k == CPU || k == MEMORY) && k in wanted.value && ValueOf(Chosen(was, profile, k)) != wanted.value[k]
  }

  function ValueOf(q: Option<int>): int {
    if q.Some? then q.value else 0
  }

  predicate EnvChanged(s: Specs, s': Specs) {
    || Find(s.os, "HTTP_PROXY") != Find(s'.os, "HTTP_PROXY") || Find(s.os, "HTTPS_PROXY") != Find(s'.os, "HTTPS_PROXY")
    || Find(s.os, "NO_PROXY") != Find(s'.os, "NO_PROXY")
    || Read(s.config, LOG_LEVEL) != Read(s'.config, LOG_LEVEL)
    || Read(s.config, LOG_COLOR) != Read(s'.config, LOG_COLOR)
  }

  predicate SecretsChanged(s: Specs, s': Specs) {
    if s'.pullSecret.Some? then
      if s.pullSecret.Some? then s.pullSecret != s'.pullSecret
      else s.serviceAccount.None? || s.serviceAccount.value == [] || s.serviceAccount.value[0] != s'.pullSecret.value
    else
      && s'.serviceAccount.Some?
      && s'.serviceAccount.value != (if s.pullSecret.Some? then [s.pullSecret.value]
                                     else if s.serviceAccount.Some? then s.serviceAccount.value else [])
  }

  /** The changes from `s` to `s'` that replace the pods. */
  predicate Noticed(s: Specs, s': Specs) {
    || EnvChanged(s, s') || s.image != s'.image || s.priorityClass != s'.priorityClass || SecretsChanged(s, s')
    || s.affinity.Some? != s'.affinity.Some?
    || (s'.storeLabel.Some? && s'.storeLabel.value != "" && s'.storeLabel.value != PodLabel(s))
    || ListChanged(OverridesOf(s').requests, OverridesOf(s).requests, s.profile.requests)
    || ListChanged(OverridesOf(s').limits, OverridesOf(s).limits, s.profile.limits)
    || AnyUncovered(TolerationsOf(s'), TolerationsOf(s))
  }

  /** The built resources: an override where one is given for CPU or memory, the profile elsewhere. */
  lemma OverrideChooses(dst: ResourceList, src: Option<ResourceList>, k: string)
    ensures Find(Override(dst, src), k) == Chosen(src, dst, k)
  {
  }

  lemma DiffersIff(wanted: Option<ResourceList>, profile: ResourceList, was: Option<ResourceList>)
    ensures Differs(wanted, Override(profile, was)) <==> ListChanged(wanted, was, profile)
  {
    OverrideChooses(profile, was, CPU);
    OverrideChooses(profile, was, MEMORY);
  }

  lemma ResourcesNoticed(s: Specs, s': Specs)
    ensures ResourcesStale(s'.overrides, PodResources(s.profile, s.overrides)) <==>
            || ListChanged(OverridesOf(s').requests, OverridesOf(s).requests, s.profile.requests)
            || ListChanged(OverridesOf(s').limits, OverridesOf(s).limits, s.profile.limits)
  {
    DiffersIff(OverridesOf(s').requests, s.profile.requests, OverridesOf(s).requests);
    DiffersIff(OverridesOf(s').limits, s.profile.limits, OverridesOf(s).limits);
  }

  lemma EnvNoticed(s: Specs, s': Specs)
    ensures EnvStale(s', BuildEnv(s)) <==> EnvChanged(s, s')
  {
    BuiltEnvHolds(s);
  }

  lemma SecretsNoticed(s: Specs, s': Specs)
    requires Build(s).Some?
    ensures SecretsStale(s', Admit(s, Build(s).value).pullSecrets) <==> SecretsChanged(s, s')
  {
  }

  /**
   Which changes reach the running pods: a pod built and admitted under one specification is judged
   stale under another exactly for these differences between the two.  A new profile, withdrawn
   overrides, labels or tolerations, and different affinity rules are not among them.
   */
  lemma StaleIffNoticed(s: Specs, s': Specs)
    requires Build(s).Some?
    ensures NeedUpdate(s', Admit(s, Build(s).value)) <==> Noticed(s, s')
  {
    var p := Admit(s, Build(s).value);
    EnvNoticed(s, s');
    ResourcesNoticed(s, s');
    SecretsNoticed(s, s');
    assert p.tolerations == TolerationsOf(s) && p.env == BuildEnv(s)
        && p.resources == PodResources(s.profile, s.overrides);
  }

  /**
   A toleration no entry of its own list covers: its operator is unknown, it has seconds, and no
   other entry covers it.
   */
  predicate Uncovered(ts: seq<Toleration>, i: nat)
    requires i < |ts|
  {
    !KnownOperator(ts[i]) && ts[i].seconds.Some? && forall j :: 0 <= j < |ts| && j != i ==> !IsSuperset(ts[j], ts[i])
  }

  lemma UncoveredIff(ts: seq<Toleration>, i: nat)
    requires i < |ts|
    ensures !Covered(ts, ts[i]) <==> Uncovered(ts, i)
  {
    ReflexiveIff(ts[i]);
    if !Covered(ts, ts[i]) {
      assert !IsSuperset(ts[i], ts[i]);
    }
  }

  /**
   No pod churn, exactly: a pod just built and admitted under the specifications is judged stale
   under the very same ones if and only if some toleration has an unknown operator and seconds and is
   covered by no other entry of the list.
   */
  lemma BuiltStaleIff(s: Specs)
    requires Build(s).Some?
    ensures NeedUpdate(s, Admit(s, Build(s).value)) <==>
            exists i :: 0 <= i < |TolerationsOf(s)| && Uncovered(TolerationsOf(s), i)
  {
    StaleIffNoticed(s, s);
    DiffersIff(OverridesOf(s).requests, s.profile.requests, OverridesOf(s).requests);
    forall i | 0 <= i < |TolerationsOf(s)|
      ensures !Covered(TolerationsOf(s), TolerationsOf(s)[i]) <==> Uncovered(TolerationsOf(s), i)
    {
      UncoveredIff(TolerationsOf(s), i);
    }
  }

  /** In particular never, when every toleration has an operator the API server accepts. */
  lemma NoChurn(s: Specs)
    requires Build(s).Some? && forall i :: 0 <= i < |TolerationsOf(s)| ==> KnownOperator(TolerationsOf(s)[i])
    ensures !NeedUpdate(s, Admit(s, Build(s).value))
  {
    BuiltStaleIff(s);
  }

  /**
   Before admission has run, one more thing would differ: pull secrets the service account has and
   the pod does not.
   */
  lemma UnadmittedStaleIff(s: Specs)
    requires Build(s).Some?
    ensures NeedUpdate(s, Build(s).value) <==>
            || NeedUpdate(s, Admit(s, Build(s).value))
            || (s.pullSecret.None? && s.serviceAccount.Some? && s.serviceAccount.value != [])
  {
  }

  /** A changed affinity is noticed exactly when one side has none: the rules themselves are never compared. */
  lemma AffinityDrift(s: Specs, p: Pod, drifted: Option<Affinity>)
    requires !NeedUpdate(s, p)
    ensures NeedUpdate(s.(affinity := drifted), p) <==> drifted.Some? != p.affinity.Some?
  {
  }

  /** What the built pod carries of the specification, apart from its environment and resources. */
  lemma BuiltCarries(s: Specs)
    requires Build(s).Some?
    ensures var p := Build(s).value;
            && p.affinity == s.affinity && p.image == s.image && p.priorityClass == s.priorityClass
            && p.automount == Some(false)
            && (s.tolerations.Some? ==> p.tolerations == s.tolerations.value)
            && (s.tolerations.None? ==> p.tolerations == [])
            && (s.pullSecret.Some? ==> p.pullSecrets == [s.pullSecret.value])
            && (s.pullSecret.None? ==> p.pullSecrets == [])
            && Read(p.labels, "app") == "noobaa" && Read(p.labels, "pool") == s.pool
            && Read(p.labels, "backingstore") ==
                 (if s.storeLabel.Some? && s.storeLabel.value != "" then s.storeLabel.value else "noobaa")
  {
    assert |"app"| == 3 && |"pool"| == 4 && |"backingstore"| == 12;
  }

  /** Both pods show the test the same in everything it looks at, apart from resources, tolerations and secrets. */
  predicate Alike(s: Specs, p: Pod, q: Pod) {
    && EnvAlike(p.env, q.env) && p.image == q.image && p.priorityClass == q.priorityClass && p.automount == q.automount
    && p.affinity.Some? == q.affinity.Some?
    && (s.storeLabel.Some? && s.storeLabel.value != "" ==>
          Read(p.labels, "backingstore") == Read(q.labels, "backingstore"))
  }

  function TextOf(v: Option<string>): string {
    if v.Some? then v.value else ""
  }

  /** The proxy variables are the same or absent alike, the log variables read the same. */
  predicate EnvAlike(e: seq<EnvVar>, e': seq<EnvVar>) {
    && Lookup(e, "HTTP_PROXY") == Lookup(e', "HTTP_PROXY") && Lookup(e, "HTTPS_PROXY") == Lookup(e', "HTTPS_PROXY")
    && Lookup(e, "NO_PROXY") == Lookup(e', "NO_PROXY")
    && TextOf(Lookup(e, LOG_LEVEL)) == TextOf(Lookup(e', LOG_LEVEL))
    && TextOf(Lookup(e, LOG_COLOR)) == TextOf(Lookup(e', LOG_COLOR))
  }

  lemma EnvStaleIffUnlike(s: Specs, env: seq<EnvVar>)
    ensures EnvStale(s, env) <==> !EnvAlike(env, BuildEnv(s))
  {
    BuiltEnvHolds(s);
  }

  /**
   The test against the builder, for any pod whatever: it is not stale exactly when it is like the one
   that would be built, has the resources of the overrides and covers the tolerations, and when its
   pull secrets are the one of the specification first, or else those of the service account.
   */
  lemma StaleIffUnlike(s: Specs, p: Pod)
    requires Build(s).Some?
    ensures !NeedUpdate(s, p) <==>
            && Alike(s, p, Build(s).value) && !ResourcesStale(s.overrides, p.resources)
            && !AnyUncovered(TolerationsOf(s), p.tolerations)
            && (s.pullSecret.Some? ==> p.pullSecrets != [] && p.pullSecrets[0] == s.pullSecret.value)
            && (s.pullSecret.None? && s.serviceAccount.Some? ==> p.pullSecrets == s.serviceAccount.value)
  {
    BuiltCarries(s);
    EnvStaleIffUnlike(s, p.env);
  }

  /** The built resources are the chosen ones, with requests within limits. */
  lemma BuiltResources(s: Specs, k: string)
    requires Build(s).Some?
    ensures var r, o := Build(s).value.resources, OverridesOf(s);
            && Find(r.requests, k) == Chosen(o.requests, s.profile.requests, k)
            && Find(r.limits, k) == Chosen(o.limits, s.profile.limits, k)
            && (k == CPU || k == MEMORY ==> (k in r.requests && k in r.limits ==> r.requests[k] <= r.limits[k]))
  {
    OverrideChooses(s.profile.requests, OverridesOf(s).requests, k);
    OverrideChooses(s.profile.limits, OverridesOf(s).limits, k);
  }
}
