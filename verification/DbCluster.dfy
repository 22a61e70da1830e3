/**
 The desired specification of the PostgreSQL cluster, the detector that decides whether to write it,
 and the reconciler's in-place form of both.

 Fields the operator never touches are folded into `rest` strings.  Nil pointers and nil maps are
 `None`, so that a nil map and an empty one differ, as they do for reflect.DeepEqual.  The results
 hold for any host; `Operator` is the one whose settings PgTune calculates.
 */
module DbCluster {
  import opened Wrappers
  import PgTune

  datatype Result<+T> = Ok(value: T) | Err

  type Params = map<string, string>

  /**
   What the reconciler is given from outside this file: how quantities parse, in bytes, and the
   parameters computed from the resources, the endpoint count and the parsed volume size.
   */
  datatype Host = Host(parse: string -> Option<int>, tuned: (Resources, nat, Option<int>) -> Params)

  // ---------------------------------------------------------------- the specification

  datatype Metadata = Metadata(labels: Option<Params>, annotations: Option<Params>)
  datatype ImageRef = ImageRef(catalog: string, major: int)
  datatype Resources = Resources(limitMemory: int, requestMemory: int, limitMilliCpu: int, requestMilliCpu: int,
                                 rest: string)
  datatype AccessMode = ReadWriteOnce | ReadWriteOncePod
  datatype PvcTemplate = PvcTemplate(accessModes: seq<AccessMode>, rest: string)
  datatype Storage = Storage(template: Option<PvcTemplate>, storageClass: Option<string>, size: string, rest: string)
  datatype Affinity = Affinity(nodeAffinity: Option<string>, topologyKey: string, tolerations: Option<seq<string>>,
                               rest: string)
  datatype Monitoring = Monitoring(podMonitor: bool, tls: Option<bool>, rest: string)
  datatype Certificates = Certificates(altNames: seq<string>, rest: string)
  datatype Snapshots = Snapshots(className: string, online: Option<bool>, rest: string)
  datatype Backup = Backup(snapshots: Option<Snapshots>, rest: string)
  datatype Bootstrap = InitDb | Recovery(snapshot: string)

  datatype Spec = Spec(metadata: Option<Metadata>, image: Option<ImageRef>, instances: int, resources: Resources,
                       storage: Storage, affinity: Affinity, priorityClass: string, monitoring: Option<Monitoring>,
                       certificates: Option<Certificates>, failoverDelay: int, parameters: Option<Params>,
                       backup: Option<Backup>, bootstrap: Option<Bootstrap>, rest: string)

  // ---------------------------------------------------------------- the inputs

  datatype NodePlacement = NodePlacement(nodeAffinity: Option<string>, topologyKey: string)

  /** `backup` is absent, present without a volume snapshot, or present with its class and maximum. */
  datatype BackupSpec = NoBackup | NoVolumeSnapshot | VolumeSnapshot(className: string, maxSnapshots: int)

  /**
   Everything a reconcile reads: the NooBaa resource, options and the environment.  `storageClass` is
   None when no local storage class is found; `tls` holds the TLS parameters that apply.
   */
  datatype Env = Env(catalog: string, major: int, instances: int, resources: Resources, rwo: bool,
                     storageClass: Option<string>, minVolumeSize: string, placement: Option<NodePlacement>,
                     tolerations: Option<seq<string>>, priorityClass: string, disableMonitoring: bool,
                     altNames: seq<string>, endpoints: nat, tls: Params, dbConf: Params, backup: BackupSpec)

  const DEFAULT_DB_VOLUME_SIZE := "50Gi"
  const FAILOVER_DELAY := 30
  const DEFAULT_MEMORY_KB := 16 * 1024 * 1024
  const DEFAULT_CPU := 4

  function OrElse<T>(o: Option<T>, default: T): T {
    if o.Some? then o.value else default
  }

  // ---------------------------------------------------------------- what is desired, field by field

  function DesiredMetadata(m: Option<Metadata>): Option<Metadata> {
    var base := OrElse(m, Metadata(None, None));
    Some(base.(labels := Some(OrElse(base.labels, map[])["app" := "noobaa"])))
  }

  /** The requested volume size; the minimum of the NooBaa resource replaces the default. */
  function DesiredSize(env: Env): (size: string)
    ensures size != ""
  {
    if env.minVolumeSize != "" then env.minVolumeSize else DEFAULT_DB_VOLUME_SIZE
  }

  /** setDesiredStorageConf: the size never shrinks; it is parsed only once one is recorded. */
  function DesiredStorage(h: Host, st: Storage, env: Env): Result<Storage> {
    if env.storageClass.None? then Err
    else
      var template := OrElse(st.template, PvcTemplate([], ""));
      var st1 := st.(template := Some(template.(accessModes := [if env.rwo then ReadWriteOnce else ReadWriteOncePod])),
                     storageClass := env.storageClass);
      if st.size == "" then Ok(st1.(size := DesiredSize(env)))
      else if h.parse(st.size).None? || h.parse(DesiredSize(env)).None? then Err
      else if h.parse(st.size).value > h.parse(DesiredSize(env)).value then Ok(st1)
      else Ok(st1.(size := DesiredSize(env)))
  }

  function DesiredAffinity(a: Affinity, env: Env): Affinity {
    var a1 := match env.placement
      case None => a.(nodeAffinity := None, topologyKey := "")
      case Some(p) =>
        a.(nodeAffinity := p.nodeAffinity, topologyKey := if p.topologyKey != "" then p.topologyKey else a.topologyKey);
    if env.tolerations.Some? then a1.(tolerations := env.tolerations) else a1
  }

  function DesiredMonitoring(m: Option<Monitoring>, env: Env): Option<Monitoring> {
    Some(OrElse(m, Monitoring(false, None, "")).(podMonitor := !env.disableMonitoring, tls := Some(true)))
  }

  function DesiredCertificates(c: Option<Certificates>, env: Env): Option<Certificates> {
    Some(OrElse(c, Certificates([], "")).(altNames := env.altNames))
  }

  function DesiredBackup(b: Option<Backup>, env: Env): Result<Option<Backup>> {
    match env.backup
    case NoBackup => Ok(None)
    case NoVolumeSnapshot => Err
    case VolumeSnapshot(name, _) =>
      var base := OrElse(b, Backup(None, ""));
      var snapshots := OrElse(base.snapshots, Snapshots("", None, ""));
      Ok(Some(base.(snapshots := Some(snapshots.(className := name, online := Some(false))))))
  }

  // ---------------------------------------------------------------- parameters

  const DEFAULTS: Params := map[
    "huge_pages" := "off", "checkpoint_completion_target" := "0.9", "default_statistics_target" := "100",
    "random_page_cost" := "1.1", "effective_io_concurrency" := "300", "min_wal_size" := "2GB",
    "max_wal_size" := "8GB", "jit" := "off", "wal_compression" := "lz4", "wal_level" := "replica",
    "wal_sender_timeout" := "60s", "wal_receiver_timeout" := "60s", "pg_stat_statements.track" := "all"]

  function MemoryKB(r: Resources): int {
    if r.limitMemory != 0 then PgTune.Quo(r.limitMemory, 1024)
    else if r.requestMemory != 0 then PgTune.Quo(r.requestMemory, 1024)
    else DEFAULT_MEMORY_KB
  }

  function Cpus(r: Resources): int {
    var cpu := if r.limitMilliCpu != 0 then PgTune.Quo(r.limitMilliCpu, 1000)
               else if r.requestMilliCpu != 0 then PgTune.Quo(r.requestMilliCpu, 1000)
               else DEFAULT_CPU;
    if cpu < 1 then 1 else cpu
  }

  /** The host of the real operator: fixed defaults under the calculated settings. */
  function Operator(parse: string -> Option<int>): Host {
    Host(parse, (r: Resources, endpoints: nat, volume: Option<int>) =>
                  DEFAULTS + PgTune.Config(MemoryKB(r), Cpus(r), endpoints, volume))
  }

  /** The overrides setPostgresConfig collects: later maps win. */
  function Overrides(h: Host, size: string, env: Env): Params {
    h.tuned(env.resources, env.endpoints, h.parse(size)) + env.tls + env.dbConf
  }

  /** Reading a Go map: a missing key reads as the empty string. */
  function Lookup(m: Params, k: string): string {
    if k in m then m[k] else ""
  }

  /** The final loop of setPostgresConfig. */
  function WithOverrides(m: Params, o: Params): Params {
    m + map k | k in o && Lookup(m, k) != o[k] :: o[k]
  }

  /** Every override reads back, everything else is as it was, and an empty override never adds a key. */
  lemma OverridesTakeEffect(m: Params, o: Params, k: string)
    ensures Lookup(WithOverrides(m, o), k) == if k in o then o[k] else Lookup(m, k)
    ensures k in WithOverrides(m, o) <==> k in m || (k in o && o[k] != "")
  {
  }

  lemma OverridesIdempotent(m: Params, o: Params)
    ensures WithOverrides(WithOverrides(m, o), o) == WithOverrides(m, o)
  {
    forall k | k in o ensures Lookup(WithOverrides(m, o), k) == o[k] { OverridesTakeEffect(m, o, k); }
  }

  // ---------------------------------------------------------------- the whole specification

  /** reconcileClusterSpec. */
  function Desired(h: Host, s: Spec, env: Env): Result<Spec> {
    var storage := DesiredStorage(h, s.storage, env);
    var backup := DesiredBackup(s.backup, env);
    if storage.Err? || backup.Err? then Err
    else
      Ok(Spec(DesiredMetadata(s.metadata), Some(ImageRef(env.catalog, env.major)), env.instances, env.resources,
              storage.value, DesiredAffinity(s.affinity, env), env.priorityClass, DesiredMonitoring(s.monitoring, env),
              DesiredCertificates(s.certificates, env), FAILOVER_DELAY,
              Some(WithOverrides(OrElse(s.parameters, map[]), Overrides(h, storage.value.size, env))),
              backup.value, s.bootstrap, s.rest))
  }

  /** wasClusterSpecChanged. */
  predicate WasChanged(was: Spec, s: Spec) {
    || was.metadata != s.metadata || was.image != s.image || was.instances != s.instances
    || was.affinity != s.affinity || was.resources != s.resources
    || was.storage.storageClass != s.storage.storageClass || was.storage.size != s.storage.size
    || was.storage.template != s.storage.template
    || was.monitoring != s.monitoring || was.parameters != s.parameters || was.backup != s.backup
    || was.certificates != s.certificates || was.priorityClass != s.priorityClass
    || was.failoverDelay != s.failoverDelay
  }

  // ---------------------------------------------------------------- what the result must be

  /** Two maps agree at a key. */
  predicate Agree(a: Params, b: Params, k: string) {
    (k in a <==> k in b) && (k in a ==> a[k] == b[k])
  }

  function LabelsOf(m: Option<Metadata>): Params {
    if m.Some? && m.value.labels.Some? then m.value.labels.value else map[]
  }

  /** The app label is set for the pods; every other label and all annotations are kept. */
  ghost predicate MetadataMet(was: Option<Metadata>, m: Option<Metadata>) {
    && m.Some? && m.value.labels.Some?
    && m.value.annotations == (if was.Some? then was.value.annotations else None)
    && "app" in m.value.labels.value && m.value.labels.value["app"] == "noobaa"
    && forall k :: k != "app" ==> Agree(m.value.labels.value, LabelsOf(was), k)
  }

  /** The volume keeps the larger of the recorded and the requested size; class and access mode follow the inputs. */
  ghost predicate StorageMet(h: Host, was: Storage, env: Env, st: Storage) {
    && st.rest == was.rest && st.storageClass.Some? && st.storageClass == env.storageClass
    && st.template.Some? && st.template.value.accessModes == [if env.rwo then ReadWriteOnce else ReadWriteOncePod]
    && (was.template.Some? ==> st.template.value.rest == was.template.value.rest)
    && var wanted := if env.minVolumeSize == "" then "50Gi" else env.minVolumeSize;
       && (was.size == "" ==> st.size == wanted)
       && (was.size != "" ==>
             && h.parse(was.size).Some? && h.parse(wanted).Some?
             && st.size == if h.parse(was.size).value > h.parse(wanted).value then was.size else wanted)
  }

  /** Offline volume snapshots of the class asked for, or no backup at all; other backup settings are kept. */
  predicate BackupMet(was: Option<Backup>, env: Env, b: Option<Backup>) {
    match env.backup
    case NoBackup => b.None?
    case NoVolumeSnapshot => false
    case VolumeSnapshot(name, _) =>
      && b.Some? && b.value.snapshots.Some?
      && b.value.snapshots.value.className == name && b.value.snapshots.value.online == Some(false)
      && (was.Some? ==> b.value.rest == was.value.rest)
      && (was.Some? && was.value.snapshots.Some? ==> b.value.snapshots.value.rest == was.value.snapshots.value.rest)
  }

  /**
   Node affinity follows the placement and is none without one; a topology key and tolerations stay
   unless others are given, the key also unless there is no placement at all; the rest is kept.
   */
  predicate AffinityMet(was: Affinity, env: Env, a: Affinity) {
    && a.nodeAffinity == (if env.placement.Some? then env.placement.value.nodeAffinity else None)
    && (env.placement.None? ==> a.topologyKey == "")
    && (env.placement.Some? && env.placement.value.topologyKey != "" ==>
          a.topologyKey == env.placement.value.topologyKey)
    && (env.placement.Some? && env.placement.value.topologyKey == "" ==> a.topologyKey == was.topologyKey)
    && a.tolerations == (if env.tolerations.Some? then env.tolerations else was.tolerations)
    && a.rest == was.rest
  }

  /**
   What a parameter reads as: the user's setting before a TLS setting before the calculated one, for
   the volume size that is written; any other parameter is as before.
   */
  ghost predicate ParametersMet(h: Host, was: Option<Params>, env: Env, size: string, p: Option<Params>) {
    var tuned := h.tuned(env.resources, env.endpoints, h.parse(size));
    && p.Some?
    && forall k ::
         && (k in env.dbConf ==> Lookup(p.value, k) == env.dbConf[k])
         && (k !in env.dbConf && k in env.tls ==> Lookup(p.value, k) == env.tls[k])
         && (k !in env.dbConf && k !in env.tls && k in tuned ==> Lookup(p.value, k) == tuned[k])
         && (k !in env.dbConf && k !in env.tls && k !in tuned ==> Agree(p.value, OrElse(was, map[]), k))
  }

  /** What reconcileClusterSpec has to make of `s`. */
  ghost predicate Met(h: Host, s: Spec, env: Env, d: Spec) {
    && AffinityMet(s.affinity, env, d.affinity) && ParametersMet(h, s.parameters, env, d.storage.size, d.parameters)
    && MetadataMet(s.metadata, d.metadata) && StorageMet(h, s.storage, env, d.storage)
    && BackupMet(s.backup, env, d.backup)
    && d.image == Some(ImageRef(env.catalog, env.major)) && d.instances == env.instances && d.resources == env.resources
    && d.priorityClass == env.priorityClass && d.failoverDelay == 30 && d.bootstrap == s.bootstrap && d.rest == s.rest
    && d.monitoring.Some? && d.monitoring.value.podMonitor != env.disableMonitoring
    && d.monitoring.value.tls == Some(true)
    && (s.monitoring.Some? ==> d.monitoring.value.rest == s.monitoring.value.rest)
    && d.certificates.Some? && d.certificates.value.altNames == env.altNames
    && (s.certificates.Some? ==> d.certificates.value.rest == s.certificates.value.rest)
  }

  /**
   Reconciling fails exactly for a missing storage class, a size that does not parse, or a backup
   without a snapshot class.
   */
  predicate Refused(h: Host, s: Spec, env: Env) {
    || env.storageClass.None? || env.backup.NoVolumeSnapshot?
    || (s.storage.size != "" && (h.parse(s.storage.size).None? || h.parse(DesiredSize(env)).None?))
  }

  lemma FailsIffRefused(h: Host, s: Spec, env: Env)
    ensures Desired(h, s, env).Err? <==> Refused(h, s, env)
  {
  }

  lemma StorageIsMet(h: Host, st: Storage, env: Env)
    requires DesiredStorage(h, st, env).Ok?
    ensures StorageMet(h, st, env, DesiredStorage(h, st, env).value)
  {
  }

  lemma ParametersAreMet(h: Host, was: Option<Params>, env: Env, size: string)
    ensures ParametersMet(h, was, env, size, Some(WithOverrides(OrElse(was, map[]), Overrides(h, size, env))))
  {
    var m, o := OrElse(was, map[]), Overrides(h, size, env);
    forall k ensures Lookup(WithOverrides(m, o), k) == if k in o then o[k] else Lookup(m, k) {
      OverridesTakeEffect(m, o, k);
    }
  }

  lemma MetadataIsMet(m: Option<Metadata>)
    ensures MetadataMet(m, DesiredMetadata(m))
  {
  }

  /** The specification that is written follows the inputs and keeps what the operator does not own. */
  lemma DesiredIsMet(h: Host, s: Spec, env: Env)
    requires !Refused(h, s, env)
    ensures Desired(h, s, env).Ok? && Met(h, s, env, Desired(h, s, env).value)
  {
    StorageIsMet(h, s.storage, env);
    MetadataIsMet(s.metadata);
    ParametersAreMet(h, s.parameters, env, DesiredStorage(h, s.storage, env).value.size);
  }

  // ---------------------------------------------------------------- fixpoint and detector

  lemma StorageFixed(h: Host, st: Storage, env: Env)
    requires DesiredStorage(h, st, env).Ok? && h.parse(DesiredSize(env)).Some?
    ensures var st1 := DesiredStorage(h, st, env).value; DesiredStorage(h, st1, env) == Ok(st1)
  {
  }

  lemma BackupFixed(b: Option<Backup>, env: Env)
    requires DesiredBackup(b, env).Ok?
    ensures var b1 := DesiredBackup(b, env).value; DesiredBackup(b1, env) == Ok(b1)
  {
  }

  lemma MetadataFixed(m: Option<Metadata>)
    ensures DesiredMetadata(DesiredMetadata(m)) == DesiredMetadata(m)
  {
    var labels := DesiredMetadata(m).value.labels.value;
    assert labels["app" := "noobaa"] == labels;
  }

  /** Cluster-spec fixpoint: a second reconcile with the same inputs succeeds and changes nothing. */
  lemma Fixpoint(h: Host, s: Spec, env: Env)
    requires !Refused(h, s, env) && h.parse(DesiredSize(env)).Some?
    ensures var s1 := Desired(h, s, env).value; Desired(h, s1, env) == Ok(s1)
  {
    StorageFixed(h, s.storage, env);
    BackupFixed(s.backup, env);
    MetadataFixed(s.metadata);
    var size := DesiredStorage(h, s.storage, env).value.size;
    OverridesIdempotent(OrElse(s.parameters, map[]), Overrides(h, size, env));
  }

  /** The detector fires exactly when the reconcile altered the specification. */
  lemma DetectorExact(h: Host, s: Spec, env: Env)
    requires !Refused(h, s, env)
    ensures WasChanged(s, Desired(h, s, env).value) <==> Desired(h, s, env).value != s
  {
    var s1 := Desired(h, s, env).value;
    if !WasChanged(s, s1) {
      assert s1.storage == s.storage;
    }
  }

  /** Exactly when the fixpoint fails: the first write recorded a size that no later reconcile can parse. */
  lemma SecondReconcileFailsIff(h: Host, s: Spec, env: Env)
    requires !Refused(h, s, env)
    ensures Desired(h, Desired(h, s, env).value, env).Err? <==> h.parse(DesiredSize(env)).None?
  {
    if h.parse(DesiredSize(env)).Some? { Fixpoint(h, s, env); }
  }

  /** Withdrawing tolerations, a topology key or a parameter from the inputs leaves the old value in place. */
  lemma Leftovers(h: Host, s: Spec, env: Env, k: string)
    requires !Refused(h, s, env)
    ensures var s1 := Desired(h, s, env).value;
            && s1.affinity.tolerations == (if env.tolerations.Some? then env.tolerations else s.affinity.tolerations)
            && s1.affinity.topologyKey ==
                 (if env.placement.None? then ""
                  else if env.placement.value.topologyKey != "" then env.placement.value.topologyKey
                  else s.affinity.topologyKey)
            && Lookup(OrElse(s1.parameters, map[]), k) ==
                 (if k in Overrides(h, s1.storage.size, env) then Overrides(h, s1.storage.size, env)[k]
                  else Lookup(OrElse(s.parameters, map[]), k))
  {
    var size := DesiredStorage(h, s.storage, env).value.size;
    OverridesTakeEffect(OrElse(s.parameters, map[]), Overrides(h, size, env), k);
  }

  /** The memory and CPUs the settings are calculated from: the limit, else the request, else 16GB and 4 CPUs. */
  lemma ResourcesRead(r: Resources)
    requires r.limitMemory >= 0 && r.requestMemory >= 0 && r.limitMilliCpu >= 0 && r.requestMilliCpu >= 0
    ensures var memory := if r.limitMemory > 0 then r.limitMemory else r.requestMemory;
            MemoryKB(r) == if memory > 0 then memory / 1024 else 16 * 1024 * 1024
    ensures var milli := if r.limitMilliCpu > 0 then r.limitMilliCpu else r.requestMilliCpu;
            Cpus(r) == if milli == 0 then 4 else if milli < 1000 then 1 else milli / 1000
  {
  }

  /** For the real operator: unless TLS or the user overrides it, a calculated setting is written, else a default. */
  lemma TunedIsWritten(parse: string -> Option<int>, s: Spec, env: Env, k: string)
    requires !Refused(Operator(parse), s, env)
    ensures var s1 := Desired(Operator(parse), s, env).value;
            var config := PgTune.Config(MemoryKB(env.resources), Cpus(env.resources), env.endpoints,
                parse(s1.storage.size));
            && (k in config && k !in env.tls && k !in env.dbConf ==>
                  Lookup(OrElse(s1.parameters, map[]), k) == config[k])
            && (k in DEFAULTS && k !in config && k !in env.tls && k !in env.dbConf ==>
                  Lookup(OrElse(s1.parameters, map[]), k) == DEFAULTS[k])
  {
    Leftovers(Operator(parse), s, env, k);
  }
}
