/**
 Runs of the database reconciler: any sequence of reconciles, each with its own inputs and API
 outcomes, and of deletions of the cluster resource, which is how a user asks for a recovery.
 */
module DbRuns {
  import opened Wrappers
  import opened DbCluster
  import Retention
  import PgTune

  datatype Status = NotSet | Creating | Updating | Recovering | Ready

  datatype RecoveryPhase = Pending | Running | Completed
  datatype RecoveryStatus = RecoveryStatus(phase: RecoveryPhase, snapshot: string)

  datatype BackupStatus = BackupStatus(total: int, available: seq<string>)

  /**
   `cluster`, `scheduled` and `snapshots` are what the API server holds: the cluster resource, whether
   the ScheduledBackup exists, and the volume snapshots.  `wasReady` records whether this cluster
   ever reported ready.
   */
  datatype State = State(cluster: Option<Spec>, scheduled: bool, snapshots: set<string>, wasReady: bool, status: Status,
                         recovery: Option<RecoveryStatus>, backup: Option<BackupStatus>, actualSize: string)

  const START := State(None, false, {}, false, NotSet, None, None, "")

  /**
   One reconcile: what it reads and how its API calls end.  `recovery` is the snapshot to recover
   from, `runningPods` the core and endpoint pods still running after stopping them (None when that
   call fails), `schedules` whether the schedule converts and its resource can be written, `listed`
   the snapshots of the scheduled backup by creation (None when listing fails), and `failing` those
   whose delete fails.
   */
  datatype Input = Input(env: Env, catalogOk: bool, recovery: Option<string>, runningPods: Option<nat>, cleanupOk: bool,
                         createOk: bool, updateOk: bool, ready: bool, schedules: bool,
                         listed: Option<seq<Retention.Snapshot>>, failing: set<string>)

  /** The cluster resource before anything is set in it. */
  const TEMPLATE := Spec(None, None, 0, Resources(0, 0, 0, 0, ""), Storage(None, None, "", ""),
                         Affinity(None, "", None, ""), "", None, None, 0, None, None, None, "")

  /** Between reconciles the user may delete the cluster, and the scheduled backup takes snapshots. */
  datatype Event = Reconcile(input: Input) | DeleteCluster | SnapshotTaken(name: string)

  const REQUIRED_SCC := "openshift.io/required-scc"

  // ---------------------------------------------------------------- one reconcile

  function AfterSpecUpdate(current: Status): Status {
    if current.Ready? then Updating else current
  }

  /** A new cluster that is not a recovery: the SCC annotation and, unless preset, an empty database. */
  function Fresh(s: Spec): Spec
    requires s.metadata.Some?
  {
    var annotations := OrElse(s.metadata.value.annotations, map[])[REQUIRED_SCC := "restricted-v2"];
    s.(metadata := Some(s.metadata.value.(annotations := Some(annotations))),
       bootstrap := if s.bootstrap.None? then Some(InitDb) else s.bootstrap)
  }

  /** Removes the scheduled backup; the flag says whether the call succeeded. */
  function Cleanup(s: State, ok: bool): (State, bool) {
    if s.scheduled && !ok then (s, false) else (s.(scheduled := false), true)
  }

  /** reconcileClusterRecovery: the state it leaves, and the specification to create unless it failed. */
  function Recover(s: State, desired: Spec, snapshot: string, input: Input): (State, Option<Spec>) {
    var s1 := s.(recovery := Some(RecoveryStatus(Pending, snapshot)));
    if input.runningPods != Some(0) then (s1, None)
    else
      var (s2, ok) := Cleanup(s1, input.cleanupOk);
      (s2, if ok then Some(desired.(bootstrap := Some(Recovery(snapshot)))) else None)
  }

  /** The creation at the end of reconcileDBCluster's first branch. */
  function Create(s: State, spec: Spec, recovery: Option<string>, ok: bool): (State, bool) {
    if !ok then (s, false)
    else
      var s1 := s.(cluster := Some(spec), wasReady := false);
      if spec.bootstrap.Some? && spec.bootstrap.value.Recovery? then
        var snapshot := if recovery.Some? then recovery.value
                        else if s.recovery.Some? then s.recovery.value.snapshot
                        else "";
        (s1.(status := Recovering, recovery := Some(RecoveryStatus(Running, snapshot))), true)
      else (s1.(status := Creating), true)
  }

  /** reconcileDBCluster once the desired specification is known; the flag is false where it returns an error. */
  function Write(s: State, desired: Spec, input: Input): (State, bool)
    requires desired.metadata.Some?
  {
    match s.cluster
    case Some(existing) =>
      if !WasChanged(existing, desired) then (s, true)
      else if !input.updateOk then (s, false)
      else (s.(cluster := Some(desired), status := AfterSpecUpdate(s.status)), true)
    case None =>
      match input.recovery
      case None => Create(s, Fresh(desired), None, input.createOk)
      case Some(snapshot) =>
        var (s1, spec) := Recover(s, desired, snapshot, input);
        if spec.None? then (s1, false) else Create(s1, spec.value, input.recovery, input.createOk)
  }

  /** reconcileBackupRetention; a negative maximum makes the original panic, which changes nothing. */
  function ReconcileRetention(s: State, max: int, input: Input): State {
    if max == 0 || input.listed.None? then s
    else
      match Retention.Plan(input.listed.value, s.snapshots, max, input.recovery, input.failing)
      case Done(left, total, available) => s.(snapshots := left, backup := Some(BackupStatus(total, available)))
      case _ => s
  }

  /** reconcileDBBackup. */
  function ReconcileBackup(s: State, input: Input): State {
    var backup := input.env.backup;
    if backup.NoBackup? then
      var (s1, ok) := Cleanup(s, input.cleanupOk);
      if ok then s1.(backup := None) else s1
    else
      var s1 := if s.backup.None? then s.(backup := Some(BackupStatus(0, []))) else s;
      if !backup.VolumeSnapshot? || !input.schedules then s1
      else ReconcileRetention(s1.(scheduled := true), backup.maxSnapshots, input)
  }

  /** The part of ReconcileCNPGCluster after reconcileDBCluster. */
  function Finish(s: State, ok: bool, input: Input): State {
    if !ok || s.cluster.None? || !input.ready then s else ReconcileBackup(Settled(s), input)
  }

  /** The status of a ready cluster. */
  function Settled(s: State): State
    requires s.cluster.Some?
  {
    var recovery := if s.recovery.Some? then Some(s.recovery.value.(phase := Completed)) else None;
    s.(status := Ready, actualSize := s.cluster.value.storage.size, recovery := recovery, wasReady := true)
  }

  /** ReconcileCNPGCluster, given what the desired specification comes to. */
  function Proceed(s: State, desired: Result<Spec>, input: Input): State
    requires desired.Ok? ==> desired.value.metadata.Some?
  {
    if !input.catalogOk || desired.Err? then s
    else
      var (s1, ok) := Write(s, desired.value, input);
      Finish(s1, ok, input)
  }

  function ReconcileOnce(h: Host, s: State, input: Input): State {
    Proceed(s, Desired(h, OrElse(s.cluster, TEMPLATE), input.env), input)
  }

  function Apply(h: Host, s: State, e: Event): State {
    match e
    case Reconcile(input) => ReconcileOnce(h, s, input)
    case DeleteCluster => s.(cluster := None, wasReady := false)
    case SnapshotTaken(name) => s.(snapshots := s.snapshots + {name})
  }

  function RunAll(h: Host, s: State, events: seq<Event>): State
    decreases events
  {
    if events == [] then s else RunAll(h, Apply(h, s, events[0]), events[1..])
  }

  // ---------------------------------------------------------------- status

  lemma WriteStatus(s: State, desired: Spec, input: Input)
    requires desired.metadata.Some?
    ensures var s' := Write(s, desired, input).0;
            s'.status == s.status || s'.status.Creating? || s'.status.Recovering? ||
            (s.status.Ready? && s'.status.Updating? && s.cluster.Some? && input.updateOk && s'.cluster != s.cluster)
  {
  }

  lemma ProceedStatus(s: State, desired: Result<Spec>, input: Input)
    requires desired.Ok? ==> desired.value.metadata.Some?
    requires Proceed(s, desired, input).status.Updating? && !s.status.Updating?
    ensures s.status.Ready? && s.cluster.Some? && input.updateOk && !input.ready
    ensures Proceed(s, desired, input).cluster != s.cluster
  {
    WriteStatus(s, desired.value, input);
  }

  /**
   A reconcile leaves the status Updating only if it was Updating, or was Ready and a changed
   specification was written.
   */
  lemma UpdatingOnlyFromReady(h: Host, s: State, e: Event)
    requires Apply(h, s, e).status.Updating? && !s.status.Updating?
    ensures s.status.Ready? && s.cluster.Some? && e.Reconcile? && e.input.updateOk && !e.input.ready
    ensures Apply(h, s, e).cluster != s.cluster
  {
    ProceedStatus(s, Desired(h, OrElse(s.cluster, TEMPLATE), e.input.env), e.input);
  }

  // ---------------------------------------------------------------- what one reconcile does

  /** Exactly when the desired specification ends up on the server. */
  lemma GoesThroughIff(h: Host, s: State, input: Input)
    ensures var base := OrElse(s.cluster, TEMPLATE);
            GoesThrough(h, s, input) <==>
            && input.catalogOk && !Refused(h, base, input.env)
            && (s.cluster.Some? ==> input.updateOk || Desired(h, base, input.env) == Ok(base))
            && (s.cluster.None? ==> input.createOk)
            && (s.cluster.None? && input.recovery.Some? ==>
                  input.runningPods == Some(0) && (!s.scheduled || input.cleanupOk))
  {
    var base := OrElse(s.cluster, TEMPLATE);
    FailsIffRefused(h, base, input.env);
    if !Refused(h, base, input.env) { DetectorExact(h, base, input.env); }
  }

  /** A reconcile that fails early leaves everything alone. */
  lemma RefusedReconcile(h: Host, s: State, input: Input)
    requires !input.catalogOk || Refused(h, OrElse(s.cluster, TEMPLATE), input.env)
    ensures ReconcileOnce(h, s, input) == s
  {
    FailsIffRefused(h, OrElse(s.cluster, TEMPLATE), input.env);
  }

  /** While pods still run, or cannot be stopped, a recovery only reports that it is pending. */
  lemma RecoveryWaits(h: Host, s: State, input: Input, snapshot: string)
    requires s.cluster.None? && input.recovery == Some(snapshot) && input.runningPods != Some(0)
    requires input.catalogOk && !Refused(h, TEMPLATE, input.env)
    ensures ReconcileOnce(h, s, input) == s.(recovery := Some(RecoveryStatus(Pending, snapshot)))
  {
    FailsIffRefused(h, TEMPLATE, input.env);
  }

  /** What is reported of a cluster that was created or written and is not ready yet. */
  lemma NotReadyYet(h: Host, s: State, input: Input)
    requires GoesThrough(h, s, input) && !input.ready
    ensures var s' := ReconcileOnce(h, s, input);
            if s.cluster.Some? then
              && s'.status == (if s'.cluster != s.cluster && s.status.Ready? then Updating else s.status)
              && s' == s.(cluster := s'.cluster, status := s'.status)
            else if input.recovery.None? then
              s' == s.(cluster := s'.cluster, status := Creating, wasReady := false)
            else
              s' == s.(cluster := s'.cluster, status := Recovering, wasReady := false, scheduled := false,
                       recovery := Some(RecoveryStatus(Running, input.recovery.value)))
  {
    var base := OrElse(s.cluster, TEMPLATE);
    FailsIffRefused(h, base, input.env);
    DetectorExact(h, base, input.env);
    DesiredKeeps(h, base, input.env);
  }

  /** A reconcile of a ready cluster, taken apart: what was written, the status, the backups. */
  lemma ReadyReconcile(h: Host, s: State, input: Input) returns (s1: State)
    requires GoesThrough(h, s, input) && input.ready
    ensures s1.cluster.Some? && ReconcileOnce(h, s, input) == ReconcileBackup(Settled(s1), input)
    ensures s1.snapshots == s.snapshots && s1.backup == s.backup && (s1.scheduled ==> s.scheduled)
    ensures s.cluster.Some? ==> s1.scheduled == s.scheduled && s1.recovery == s.recovery
    ensures s.cluster.None? && input.recovery.Some? ==>
              s1.recovery == Some(RecoveryStatus(Running, input.recovery.value))
  {
    var base := OrElse(s.cluster, TEMPLATE);
    var desired := Desired(h, base, input.env).value;
    FailsIffRefused(h, base, input.env);
    DesiredKeeps(h, base, input.env);
    WriteShape(s, desired, input);
    s1 := Write(s, desired, input).0;
  }

  lemma WriteShape(s: State, desired: Spec, input: Input)
    requires desired.metadata.Some? && Write(s, desired, input).1
    requires desired.bootstrap == if s.cluster.Some? then s.cluster.value.bootstrap else None
    ensures var s1 := Write(s, desired, input).0;
            && s1.cluster.Some? && s1.snapshots == s.snapshots && s1.backup == s.backup
            && (s1.scheduled ==> s.scheduled)
            && (s.cluster.Some? ==> s1.scheduled == s.scheduled && s1.recovery == s.recovery)
            && (s.cluster.None? && input.recovery.Some? ==>
                  s1.recovery == Some(RecoveryStatus(Running, input.recovery.value)))
  {
  }

  /** Backups touch the schedule, the snapshots and their status only. */
  lemma BackupFrame(s: State, input: Input)
    ensures var s' := ReconcileBackup(s, input);
            s' == s.(scheduled := s'.scheduled, snapshots := s'.snapshots, backup := s'.backup)
  {
  }

  /** A ready cluster is reported as such, with the size it has, and any recovery as completed. */
  lemma ReadyReport(h: Host, s: State, input: Input)
    requires GoesThrough(h, s, input) && input.ready
    ensures var s' := ReconcileOnce(h, s, input);
            && s'.status.Ready? && s'.wasReady && s'.cluster.Some? && s'.actualSize == s'.cluster.value.storage.size
            && (s'.recovery.Some? ==> s'.recovery.value.phase.Completed?)
            && (s.cluster.Some? ==> (s'.recovery.Some? <==> s.recovery.Some?))
            && (s.cluster.None? && input.recovery.Some? ==>
                  s'.recovery == Some(RecoveryStatus(Completed, input.recovery.value)))
  {
    var s1 := ReadyReconcile(h, s, input);
    BackupFrame(Settled(s1), input);
  }

  lemma BackupSchedule(s: State, input: Input)
    ensures var s' := ReconcileBackup(s, input);
            && (input.env.backup.VolumeSnapshot? && input.schedules ==> s'.scheduled && s'.backup.Some?)
            && (input.env.backup.NoBackup? ==>
                  && s'.snapshots == s.snapshots && s'.scheduled == (s.scheduled && !input.cleanupOk)
                  && s'.backup == if s'.scheduled then s.backup else None)
            && (input.env.backup.VolumeSnapshot? && !input.schedules ==>
                  s'.snapshots == s.snapshots && s'.scheduled == s.scheduled)
            && (input.env.backup.VolumeSnapshot? && (input.listed.None? || input.env.backup.maxSnapshots <= 0) ==>
                  s'.snapshots == s.snapshots)
  {
  }

  /** The scheduled backup of a ready cluster: there once its schedule converts, gone once it is withdrawn. */
  lemma ReadyBackup(h: Host, s: State, input: Input)
    requires GoesThrough(h, s, input) && input.ready
    ensures var s' := ReconcileOnce(h, s, input);
            && (input.env.backup.VolumeSnapshot? && input.schedules ==> s'.scheduled && s'.backup.Some?)
            && (input.env.backup.NoBackup? && (input.cleanupOk || !s.scheduled) ==>
                  !s'.scheduled && s'.backup.None? && s'.snapshots == s.snapshots)
            && (input.env.backup.NoBackup? && !input.cleanupOk && s.scheduled && s.cluster.Some? ==>
                  s'.scheduled && s'.backup == s.backup)
            && (input.env.backup.VolumeSnapshot? && (!input.schedules || input.listed.None? ||
                                                     input.env.backup.maxSnapshots <= 0) ==>
                  s'.snapshots == s.snapshots)
  {
    var s1 := ReadyReconcile(h, s, input);
    BackupSchedule(Settled(s1), input);
  }

  lemma BackupPrunes(s: State, input: Input, l: seq<Retention.Snapshot>)
    requires input.schedules && input.listed == Some(l)
    requires input.env.backup.VolumeSnapshot? && input.env.backup.maxSnapshots > 0
    ensures var s', r := ReconcileBackup(s, input),
                         Retention.Plan(l, s.snapshots, input.env.backup.maxSnapshots, input.recovery, input.failing);
            r.Done? && s'.snapshots == r.server && s'.backup == Some(BackupStatus(r.total, r.available))
  {
    var s1 := BackupRetains(s, input);
    RetentionPlans(s1, input.env.backup.maxSnapshots, input, l);
  }

  /** A volume snapshot backup with a schedule comes down to retention. */
  lemma BackupRetains(s: State, input: Input) returns (s1: State)
    requires input.env.backup.VolumeSnapshot? && input.schedules
    ensures s1.snapshots == s.snapshots
    ensures ReconcileBackup(s, input) == ReconcileRetention(s1, input.env.backup.maxSnapshots, input)
  {
    s1 := (if s.backup.None? then s.(backup := Some(BackupStatus(0, []))) else s).(scheduled := true);
  }

  lemma RetentionPlans(s: State, max: int, input: Input, l: seq<Retention.Snapshot>)
    requires input.listed == Some(l) && max > 0
    ensures var s', r := ReconcileRetention(s, max, input),
                         Retention.Plan(l, s.snapshots, max, input.recovery, input.failing);
            r.Done? && s'.snapshots == r.server && s'.backup == Some(BackupStatus(r.total, r.available))
  {
  }

  /** Of the snapshots listed, a ready reconcile keeps exactly the newest, the recovery one and failed deletes. */
  lemma ReadyPrunes(h: Host, s: State, input: Input, l: seq<Retention.Snapshot>)
    requires GoesThrough(h, s, input) && input.ready && input.schedules && input.listed == Some(l)
    requires input.env.backup.VolumeSnapshot? && input.env.backup.maxSnapshots > 0
    requires Retention.UniqueNames(l) && Retention.NameSet(l) <= s.snapshots
    ensures var s', max := ReconcileOnce(h, s, input), input.env.backup.maxSnapshots;
            && Retention.Kept(l, s'.snapshots, Retention.Excess(l, max), input.recovery, input.failing)
            && s'.backup.Some? && s'.backup.value.total + |Retention.NameSet(l) - s'.snapshots| == |l|
            && forall i :: 0 <= i < |s'.backup.value.available| ==> s'.backup.value.available[i] in s'.snapshots
  {
    var max := input.env.backup.maxSnapshots;
    var s1 := ReadyReconcile(h, s, input);
    BackupPrunes(Settled(s1), input, l);
    Retention.PlanKeeps(l, s.snapshots, max, input.recovery, input.failing);
    Retention.PlanReports(l, s.snapshots, max, input.recovery, input.failing);
    var s', n := ReconcileOnce(h, s, input), Retention.Excess(l, max);
    forall i | 0 <= i < |s'.backup.value.available| ensures s'.backup.value.available[i] in s'.snapshots {
      Retention.AvailableLeft(l, s'.snapshots, n, input.recovery, input.failing, s'.backup.value.available, i);
    }
  }

  // ---------------------------------------------------------------- recovery

  predicate RecoveryCluster(s: State) {
    s.cluster.Some? && s.cluster.value.bootstrap.Some? && s.cluster.value.bootstrap.value.Recovery?
  }

  /** While a recovered cluster has not been ready yet, no scheduled backup exists that could snapshot it. */
  predicate Guarded(s: State) {
    RecoveryCluster(s) && !s.wasReady ==> !s.scheduled
  }

  /** A recovery cluster is created only by a reconcile that saw no pod running and left no scheduled backup. */
  lemma RecoveryCreation(s: State, desired: Spec, input: Input)
    requires desired.metadata.Some? && desired.bootstrap.None? && s.cluster.None?
        && RecoveryCluster(Write(s, desired, input).0)
    ensures input.runningPods == Some(0) && input.recovery.Some?
    ensures var s' := Write(s, desired, input).0;
            && !s'.scheduled && !s'.wasReady && s'.status.Recovering?
            && s'.cluster.value.bootstrap == Some(Recovery(input.recovery.value))
            && s'.recovery == Some(RecoveryStatus(Running, input.recovery.value))
  {
    match input.recovery
    case None =>
    case Some(snapshot) =>
  }

  /** What follows reconcileDBCluster leaves the cluster alone, and runs only once it is ready. */
  lemma FinishShape(s: State, ok: bool, input: Input)
    ensures var s' := Finish(s, ok, input);
            s'.cluster == s.cluster && (s' == s || (s'.wasReady && s'.status.Ready? && input.ready))
  {
  }

  lemma ProceedStartsAlone(s: State, desired: Spec, input: Input)
    requires desired.metadata.Some? && desired.bootstrap.None? && s.cluster.None?
    requires RecoveryCluster(Proceed(s, Ok(desired), input))
    ensures input.runningPods == Some(0) && input.recovery.Some?
    ensures var s' := Proceed(s, Ok(desired), input);
            && s'.cluster.value.bootstrap == Some(Recovery(input.recovery.value))
            && (!s'.wasReady ==> !s'.scheduled && s'.status.Recovering?)
  {
    var (s1, ok) := Write(s, desired, input);
    FinishShape(s1, ok, input);
    RecoveryCreation(s, desired, input);
  }

  /** The same for the whole reconcile: a scheduled backup can only reappear once the new cluster is ready. */
  lemma RecoveryStartsAlone(h: Host, s: State, input: Input)
    requires s.cluster.None? && RecoveryCluster(ReconcileOnce(h, s, input))
    ensures input.runningPods == Some(0) && input.recovery.Some?
    ensures var s' := ReconcileOnce(h, s, input);
            && s'.cluster.value.bootstrap == Some(Recovery(input.recovery.value))
            && (!s'.wasReady ==> !s'.scheduled && s'.status.Recovering?)
  {
    var desired := Desired(h, TEMPLATE, input.env);
    DesiredKeeps(h, TEMPLATE, input.env);
    ProceedStartsAlone(s, desired.value, input);
  }

  /** Every cluster records a size. */
  predicate Sized(s: State) {
    s.cluster.Some? ==> s.cluster.value.storage.size != ""
  }

  lemma DesiredKeeps(h: Host, s: Spec, env: Env)
    requires !Refused(h, s, env)
    ensures var d := Desired(h, s, env).value; d.metadata.Some? && d.bootstrap == s.bootstrap && d.storage.size != ""
  {
  }

  lemma WriteKeeps(s: State, desired: Spec, input: Input)
    requires Guarded(s) && Sized(s) && desired.metadata.Some? && desired.storage.size != ""
    requires desired.bootstrap == if s.cluster.Some? then s.cluster.value.bootstrap else None
    ensures var s' := Write(s, desired, input).0; Guarded(s') && Sized(s')
  {
    if s.cluster.None? && RecoveryCluster(Write(s, desired, input).0) {
      RecoveryCreation(s, desired, input);
    }
  }

  lemma ReconcileKeeps(h: Host, s: State, input: Input)
    requires Guarded(s) && Sized(s)
    ensures var s' := ReconcileOnce(h, s, input); Guarded(s') && Sized(s')
  {
    var base := OrElse(s.cluster, TEMPLATE);
    match Desired(h, base, input.env)
    case Err =>
    case Ok(desired) =>
      DesiredKeeps(h, base, input.env);
      WriteKeeps(s, desired, input);
      FinishShape(Write(s, desired, input).0, Write(s, desired, input).1, input);
  }

  lemma {:induction false} RunKeeps(h: Host, s: State, events: seq<Event>)
    requires Guarded(s) && Sized(s)
    ensures var s' := RunAll(h, s, events); Guarded(s') && Sized(s')
    decreases events
  {
    if events != [] {
      match events[0] {
        case Reconcile(input) => ReconcileKeeps(h, s, input);
        case DeleteCluster =>
        case SnapshotTaken(_) =>
      }
      RunKeeps(h, Apply(h, s, events[0]), events[1..]);
    }
  }

  /** In every run, no scheduled backup exists while a recovery is still in progress. */
  lemma RecoveryNeverSnapshotted(h: Host, events: seq<Event>)
    ensures Guarded(RunAll(h, START, events)) && Sized(RunAll(h, START, events))
  {
    RunKeeps(h, START, events);
  }

  /** Every reconcile of the run names `x` as the snapshot to recover from. */
  predicate Recovers(events: seq<Event>, x: string) {
    forall i :: 0 <= i < |events| && events[i].Reconcile? ==> events[i].input.recovery == Some(x)
  }

  lemma PlanSpares(l: seq<Retention.Snapshot>, server: set<string>, max: int, x: string, failing: set<string>)
    requires x in server && max > 0
    ensures x in Retention.Plan(l, server, max, Some(x), failing).server
  {
  }

  lemma BackupSpares(s: State, input: Input, x: string)
    requires x in s.snapshots && input.recovery == Some(x)
    ensures x in ReconcileBackup(s, input).snapshots
  {
    var backup := input.env.backup;
    if backup.VolumeSnapshot? && input.schedules && backup.maxSnapshots > 0 && input.listed.Some? {
      BackupPrunes(s, input, input.listed.value);
      PlanSpares(input.listed.value, s.snapshots, backup.maxSnapshots, x, input.failing);
    } else {
      BackupSchedule(s, input);
    }
  }

  lemma WriteSnapshots(s: State, desired: Spec, input: Input)
    requires desired.metadata.Some?
    ensures Write(s, desired, input).0.snapshots == s.snapshots
  {
  }

  lemma ProceedSpares(s: State, desired: Result<Spec>, input: Input, x: string)
    requires desired.Ok? ==> desired.value.metadata.Some?
    requires x in s.snapshots && input.recovery == Some(x)
    ensures x in Proceed(s, desired, input).snapshots
  {
    if input.catalogOk && desired.Ok? {
      var (s1, ok) := Write(s, desired.value, input);
      WriteSnapshots(s, desired.value, input);
      if ok && s1.cluster.Some? && input.ready { BackupSpares(Settled(s1), input, x); }
    }
  }

  /** In every run that asks for a recovery from `x`, however often backups are pruned meanwhile, `x` is kept. */
  lemma {:induction false} RecoverySnapshotKept(h: Host, s: State, events: seq<Event>, x: string)
    requires x in s.snapshots && Recovers(events, x)
    ensures x in RunAll(h, s, events).snapshots
    decreases events
  {
    if events != [] {
      match events[0] {
        case Reconcile(input) =>
          ProceedSpares(s, Desired(h, OrElse(s.cluster, TEMPLATE), input.env), input, x);
        case DeleteCluster =>
        case SnapshotTaken(_) =>
      }
      assert Recovers(events[1..], x);
      RecoverySnapshotKept(h, Apply(h, s, events[0]), events[1..], x);
    }
  }

  // ---------------------------------------------------------------- volume size

  /** The reconcile reaches the end of reconcileDBCluster on an existing cluster. */
  predicate Applies(h: Host, s: State, e: Event) {
    && e.Reconcile? && e.input.catalogOk && s.cluster.Some?
    && match Desired(h, s.cluster.value, e.input.env)
       case Err => false
       case Ok(desired) => WasChanged(s.cluster.value, desired) ==> e.input.updateOk
  }

  function Size(h: Host, s: State): Option<int> {
    if s.cluster.None? then None else h.parse(s.cluster.value.storage.size)
  }

  function Requested(h: Host, e: Event): Option<int>
    requires e.Reconcile?
  {
    h.parse(DesiredSize(e.input.env))
  }

  predicate OnOneCluster(events: seq<Event>) {
    forall i :: 0 <= i < |events| ==> events[i].Reconcile?
  }

  /** The largest size requested so far by the reconciles that were applied. */
  function RunningMax(h: Host, s: State, events: seq<Event>, max: int): int
    decreases events
  {
    if events == [] then max
    else
      var max' := if events[0].Reconcile? && Applies(h, s, events[0]) && Requested(h, events[0]).Some?
                  then PgTune.Max(max, Requested(h, events[0]).value) else max;
      RunningMax(h, Apply(h, s, events[0]), events[1..], max')
  }

  lemma ProceedCluster(s: State, desired: Spec, input: Input)
    requires desired.metadata.Some? && s.cluster.Some? && input.catalogOk
    requires WasChanged(s.cluster.value, desired) <==> desired != s.cluster.value
    ensures Proceed(s, Ok(desired), input).cluster ==
            if desired == s.cluster.value || input.updateOk then Some(desired) else s.cluster
  {
  }

  /** What one reconcile does to an existing cluster: all of what is desired, or nothing. */
  lemma StepCluster(h: Host, s: State, e: Event)
    requires e.Reconcile? && s.cluster.Some?
    ensures var s' := Apply(h, s, e);
            s'.cluster == if Applies(h, s, e) then Some(Desired(h, s.cluster.value, e.input.env).value) else s.cluster
  {
    var env := e.input.env;
    if e.input.catalogOk && Desired(h, s.cluster.value, env).Ok? {
      DetectorExact(h, s.cluster.value, env);
      ProceedCluster(s, Desired(h, s.cluster.value, env).value, e.input);
    }
  }

  lemma StepSize(h: Host, s: State, e: Event)
    requires e.Reconcile? && s.cluster.Some? && Sized(s) && Size(h, s).Some?
    ensures var s' := Apply(h, s, e);
            && s'.cluster.Some? && Sized(s') && Size(h, s').Some?
            && (Applies(h, s, e) ==> Requested(h, e).Some?)
            && Size(h, s').value == if Applies(h, s, e) then PgTune.Max(Size(h, s).value, Requested(h, e).value)
                                        else Size(h, s).value
  {
    StepCluster(h, s, e);
  }

  /** No shrink: over any reconciles of one cluster its size is the largest size that was ever requested and applied. */
  lemma {:induction false} SizeIsRunningMax(h: Host, s: State, events: seq<Event>)
    requires OnOneCluster(events) && s.cluster.Some? && Sized(s) && Size(h, s).Some?
    ensures var s' := RunAll(h, s, events);
            Size(h, s') == Some(RunningMax(h, s, events, Size(h, s).value))
    decreases events
  {
    if events != [] {
      StepSize(h, s, events[0]);
      SizeIsRunningMax(h, Apply(h, s, events[0]), events[1..]);
    }
  }

  /** A cluster created with a size that does not parse is never written again, whatever is requested later. */
  lemma {:induction false} UnparsableSizeSticks(h: Host, s: State, events: seq<Event>)
    requires OnOneCluster(events) && s.cluster.Some? && Sized(s) && Size(h, s).None?
    ensures RunAll(h, s, events).cluster == s.cluster
    decreases events
  {
    if events != [] {
      StepCluster(h, s, events[0]);
      UnparsableSizeSticks(h, Apply(h, s, events[0]), events[1..]);
    }
  }

  /** No reconcile of the existing cluster ever changes it again. */
  ghost predicate Stuck(h: Host, s: State) {
    forall events :: OnOneCluster(events) ==> RunAll(h, s, events).cluster == s.cluster
  }

  /** A new cluster that is not a recovery is created whether or not its size parses. */
  lemma CreatedIff(h: Host, s: State, input: Input)
    requires s.cluster.None? && input.recovery.None?
    ensures ReconcileOnce(h, s, input).cluster.Some? <==>
            && input.catalogOk && input.createOk
            && input.env.storageClass.Some? && !input.env.backup.NoVolumeSnapshot?
  {
    FailsIffRefused(h, TEMPLATE, input.env);
    var desired := Desired(h, TEMPLATE, input.env);
    if input.catalogOk && desired.Ok? {
      DesiredKeeps(h, TEMPLATE, input.env);
      var (s1, ok) := Write(s, desired.value, input);
      FinishShape(s1, ok, input);
    }
  }

  /** The cluster a reconcile has created, if it did: its size, how it starts, and under which constraint it runs. */
  lemma CreatedCluster(h: Host, s: State, input: Input)
    requires s.cluster.None? && ReconcileOnce(h, s, input).cluster.Some?
    ensures var c := ReconcileOnce(h, s, input).cluster.value;
            c.storage.size == DesiredSize(input.env) && c.storage.size != "" && c.instances == input.env.instances
    ensures StartsAs(ReconcileOnce(h, s, input).cluster.value, input.recovery)
    ensures input.env.storageClass.Some? && !input.env.backup.NoVolumeSnapshot?
  {
    var desired := Desired(h, TEMPLATE, input.env);
    DesiredKeeps(h, TEMPLATE, input.env);
    var (s1, ok) := Write(s, desired.value, input);
    FinishShape(s1, ok, input);
    if ok { CreatedSpec(s, desired.value, input); }
  }

  lemma CreatedSpec(s: State, desired: Spec, input: Input)
    requires s.cluster.None? && desired.metadata.Some? && desired.bootstrap.None? && Write(s, desired, input).1
    ensures var c := Write(s, desired, input).0.cluster;
            && c.Some? && c.value.storage == desired.storage && c.value.instances == desired.instances
            && StartsAs(c.value, input.recovery)
  {
  }

  /** From the snapshot to recover, or else empty and under the restricted security context. */
  predicate StartsAs(c: Spec, recovery: Option<string>) {
    if recovery.Some? then c.bootstrap == Some(Recovery(recovery.value))
    else
      && c.bootstrap == Some(InitDb) && c.metadata.Some? && c.metadata.value.annotations.Some?
      && REQUIRED_SCC in c.metadata.value.annotations.value
      && c.metadata.value.annotations.value[REQUIRED_SCC] == "restricted-v2"
  }

  /** A cluster whose size parses takes the next change of its instances. */
  lemma ParsableChanges(h: Host, s: State, input: Input)
    requires s.cluster.Some? && s.cluster.value.storage.size == DesiredSize(input.env)
    requires h.parse(DesiredSize(input.env)).Some? && s.cluster.value.instances == input.env.instances
    requires input.env.storageClass.Some? && !input.env.backup.NoVolumeSnapshot?
    ensures !Stuck(h, s)
  {
    var env := input.env.(instances := input.env.instances + 1);
    var e := Reconcile(input.(env := env, catalogOk := true, updateOk := true));
    FailsIffRefused(h, s.cluster.value, env);
    StepCluster(h, s, e);
    assert RunAll(h, s, [e]) == Apply(h, s, e) by { assert [e][1..] == []; }
    assert OnOneCluster([e]);
  }

  /** A creation leaves a cluster that no reconcile ever changes if and only if the requested size does not parse. */
  lemma CreatedStuckIff(h: Host, s: State, input: Input)
    requires s.cluster.None? && ReconcileOnce(h, s, input).cluster.Some?
    ensures Stuck(h, ReconcileOnce(h, s, input)) <==> h.parse(DesiredSize(input.env)).None?
  {
    var s1 := ReconcileOnce(h, s, input);
    CreatedCluster(h, s, input);
    if h.parse(DesiredSize(input.env)).None? {
      forall events | OnOneCluster(events) ensures RunAll(h, s1, events).cluster == s1.cluster {
        UnparsableSizeSticks(h, s1, events);
      }
    } else {
      ParsableChanges(h, s1, input);
    }
  }

  /** From the very start: such a size is accepted, and the cluster then stays as it was created for ever. */
  lemma StuckFromStart(h: Host, input: Input, later: seq<Event>)
    requires input.recovery.None? && input.catalogOk && input.createOk && h.parse(DesiredSize(input.env)).None?
    requires input.env.storageClass.Some? && !input.env.backup.NoVolumeSnapshot? && OnOneCluster(later)
    ensures var s := RunAll(h, START, [Reconcile(input)] + later);
            s.cluster.Some? && s.cluster == ReconcileOnce(h, START, input).cluster
  {
    var events := [Reconcile(input)] + later;
    assert events[0] == Reconcile(input) && events[1..] == later;
    CreatedIff(h, START, input);
    CreatedStuckIff(h, START, input);
  }

  // ---------------------------------------------------------------- withdrawn settings

  /** The state in which event `i` of the run happens. */
  function At(h: Host, s: State, events: seq<Event>, i: nat): State
    requires i <= |events|
  {
    RunAll(h, s, events[..i])
  }

  lemma {:induction false} RunAllSnoc(h: Host, s: State, events: seq<Event>, e: Event)
    ensures RunAll(h, s, events + [e]) == Apply(h, RunAll(h, s, events), e)
    decreases events
  {
    if events == [] {
      assert (events + [e])[1..] == [];
    } else {
      assert (events + [e])[0] == events[0] && (events + [e])[1..] == events[1..] + [e];
      RunAllSnoc(h, Apply(h, s, events[0]), events[1..], e);
    }
  }

  lemma AtNext(h: Host, s: State, events: seq<Event>, i: nat)
    requires i < |events|
    ensures At(h, s, events, i + 1) == Apply(h, At(h, s, events, i), events[i])
  {
    assert events[..i + 1] == events[..i] + [events[i]];
    RunAllSnoc(h, s, events[..i], events[i]);
  }

  /** Reconciling never drops an existing cluster. */
  lemma {:induction false} ClusterStays(h: Host, s: State, events: seq<Event>, i: nat)
    requires OnOneCluster(events) && s.cluster.Some? && i <= |events|
    ensures At(h, s, events, i).cluster.Some?
  {
    if i > 0 {
      ClusterStays(h, s, events, i - 1);
      AtNext(h, s, events, i - 1);
      StepCluster(h, At(h, s, events, i - 1), events[i - 1]);
    }
  }

  /** Event `i` of the run is a reconcile that is applied. */
  predicate AppliedAt(h: Host, s: State, events: seq<Event>, i: nat) {
    i < |events| && Applies(h, At(h, s, events, i), events[i])
  }

  function TolerationsOf(s: State): Option<seq<string>> {
    if s.cluster.None? then None else s.cluster.value.affinity.tolerations
  }

  /** The tolerations event `i` gives, be it the empty list, if it is an applied reconcile that gives some. */
  function Given(h: Host, s: State, events: seq<Event>, i: nat): Option<seq<string>> {
    if AppliedAt(h, s, events, i) then events[i].input.env.tolerations else None
  }

  /** No event after the first `n` gives tolerations. */
  predicate NoneGiven(h: Host, s: State, events: seq<Event>, n: nat) {
    forall i: nat :: n <= i < |events| ==> Given(h, s, events, i).None?
  }

  lemma TolerationsStep(h: Host, s: State, events: seq<Event>, i: nat)
    requires OnOneCluster(events) && s.cluster.Some? && i < |events|
    ensures TolerationsOf(At(h, s, events, i + 1)) ==
            if Given(h, s, events, i).Some? then Given(h, s, events, i) else TolerationsOf(At(h, s, events, i))
  {
    ClusterStays(h, s, events, i);
    AtNext(h, s, events, i);
    StepCluster(h, At(h, s, events, i), events[i]);
  }

  /** Withdrawing tolerations keeps them: from event `n` on they change only when an applied reconcile gives some. */
  lemma {:induction false} WithdrawnTolerationsStay(h: Host, s: State, events: seq<Event>, n: nat)
    requires OnOneCluster(events) && s.cluster.Some? && n <= |events| && NoneGiven(h, s, events, n)
    ensures TolerationsOf(RunAll(h, s, events)) == TolerationsOf(At(h, s, events, n))
    decreases |events| - n
  {
    if n == |events| {
      assert events[..n] == events;
    } else {
      TolerationsStep(h, s, events, n);
      WithdrawnTolerationsStay(h, s, events, n + 1);
    }
  }

  /** After any reconciles they are the list, empty or not, of the last applied reconcile that gave one. */
  lemma TolerationsAreLastGiven(h: Host, s: State, events: seq<Event>, i: nat)
    requires OnOneCluster(events) && s.cluster.Some? && i < |events|
    requires Given(h, s, events, i).Some? && NoneGiven(h, s, events, i + 1)
    ensures TolerationsOf(RunAll(h, s, events)) == events[i].input.env.tolerations
  {
    TolerationsStep(h, s, events, i);
    WithdrawnTolerationsStay(h, s, events, i + 1);
  }

  lemma {:induction false} LastGiver(h: Host, s: State, events: seq<Event>, n: nat) returns (i: Option<nat>)
    requires n <= |events| && NoneGiven(h, s, events, n)
    ensures i.None? ==> NoneGiven(h, s, events, 0)
    ensures i.Some? ==> i.value < |events| && Given(h, s, events, i.value).Some? && NoneGiven(h, s, events, i.value + 1)
    decreases n
  {
    if n == 0 {
      i := None;
    } else if Given(h, s, events, n - 1).Some? {
      i := Some(n - 1);
    } else {
      i := LastGiver(h, s, events, n - 1);
    }
  }

  predicate Tolerant(s: State) {
    TolerationsOf(s).Some? && TolerationsOf(s).value != []
  }

  /** Event `i` explicitly empties the tolerations, and no later one gives any. */
  predicate Clears(h: Host, s: State, events: seq<Event>, i: nat) {
    i < |events| && Given(h, s, events, i) == Some([]) && NoneGiven(h, s, events, i + 1)
  }

  /**
   Exactly when the tolerations of a cluster go away: not by withdrawing them, only by giving an empty
   list in a reconcile that is applied, and none after it.
   */
  lemma TolerationsGoneIff(h: Host, s: State, events: seq<Event>)
    requires OnOneCluster(events) && Tolerant(s)
    ensures !Tolerant(RunAll(h, s, events)) <==> exists i :: Clears(h, s, events, i)
  {
    var last := LastGiver(h, s, events, |events|);
    if last.None? {
      WithdrawnTolerationsStay(h, s, events, 0);
    } else {
      TolerationsAreLastGiven(h, s, events, last.value);
    }
    if !Tolerant(RunAll(h, s, events)) {
      assert Clears(h, s, events, last.value);
    }
    forall i | Clears(h, s, events, i) ensures !Tolerant(RunAll(h, s, events)) {
      TolerationsAreLastGiven(h, s, events, i);
    }
  }

  function Parameter(s: State, k: string): string {
    if s.cluster.None? then "" else Lookup(OrElse(s.cluster.value.parameters, map[]), k)
  }

  function SizeText(s: State): string {
    if s.cluster.None? then "" else s.cluster.value.storage.size
  }

  /** The value event `i` sets the parameter to, if it is an applied reconcile that sets it. */
  function SetTo(h: Host, s: State, events: seq<Event>, i: nat, k: string): Option<string> {
    if !AppliedAt(h, s, events, i) then None
    else
      var o := Overrides(h, SizeText(At(h, s, events, i + 1)), events[i].input.env);
      if k in o then Some(o[k]) else None
  }

  predicate NoneSets(h: Host, s: State, events: seq<Event>, n: nat, k: string) {
    forall i: nat :: n <= i < |events| ==> SetTo(h, s, events, i, k).None?
  }

  lemma ParameterApplied(h: Host, s: State, e: Event, k: string)
    requires e.Reconcile? && s.cluster.Some?
    ensures var s', o := Apply(h, s, e), Overrides(h, SizeText(Apply(h, s, e)), e.input.env);
            Parameter(s', k) == if Applies(h, s, e) && k in o then o[k] else Parameter(s, k)
  {
    StepCluster(h, s, e);
    if Applies(h, s, e) { Leftovers(h, s.cluster.value, e.input.env, k); }
  }

  lemma ParameterStep(h: Host, s: State, events: seq<Event>, i: nat, k: string)
    requires OnOneCluster(events) && s.cluster.Some? && i < |events|
    ensures Parameter(At(h, s, events, i + 1), k) ==
            OrElse(SetTo(h, s, events, i, k), Parameter(At(h, s, events, i), k))
  {
    ClusterStays(h, s, events, i);
    AtNext(h, s, events, i);
    ParameterApplied(h, At(h, s, events, i), events[i], k);
  }

  /** A parameter keeps its value from event `n` on through any reconciles that do not set it. */
  lemma {:induction false} WithdrawnParameterStays(h: Host, s: State, events: seq<Event>, n: nat, k: string)
    requires OnOneCluster(events) && s.cluster.Some? && n <= |events| && NoneSets(h, s, events, n, k)
    ensures Parameter(RunAll(h, s, events), k) == Parameter(At(h, s, events, n), k)
    decreases |events| - n
  {
    if n == |events| {
      assert events[..n] == events;
    } else {
      ParameterStep(h, s, events, n, k);
      WithdrawnParameterStays(h, s, events, n + 1, k);
    }
  }

  /** After any reconciles it has the value given by the last applied reconcile that set it. */
  lemma ParameterIsLastSet(h: Host, s: State, events: seq<Event>, i: nat, k: string)
    requires OnOneCluster(events) && s.cluster.Some? && i < |events|
    requires SetTo(h, s, events, i, k).Some? && NoneSets(h, s, events, i + 1, k)
    ensures Parameter(RunAll(h, s, events), k) == SetTo(h, s, events, i, k).value
  {
    ParameterStep(h, s, events, i, k);
    WithdrawnParameterStays(h, s, events, i + 1, k);
  }

  // ---------------------------------------------------------------- a steady system is quiet

  /** The reconcile writes the cluster resource. */
  predicate Writes(h: Host, s: State, input: Input) {
    && input.catalogOk
    && match Desired(h, OrElse(s.cluster, TEMPLATE), input.env)
       case Err => false
       case Ok(desired) => s.cluster.None? || WasChanged(s.cluster.value, desired)
  }

  /** What a creation adds to the specification survives later reconciles. */
  lemma CreatedFixed(h: Host, s: Spec, env: Env, bootstrap: Option<Bootstrap>)
    requires !Refused(h, s, env) && h.parse(DesiredSize(env)).Some?
    ensures var d := Desired(h, s, env).value;
            && Desired(h, Fresh(d), env) == Ok(Fresh(d))
            && Desired(h, d.(bootstrap := bootstrap), env) == Ok(d.(bootstrap := bootstrap))
  {
    Fixpoint(h, s, env);
    var d := Desired(h, s, env).value;
    assert DesiredMetadata(Fresh(d).metadata) == Fresh(d).metadata by {
      var labels := d.metadata.value.labels.value;
      assert labels["app" := "noobaa"] == labels;
    }
    assert DesiredStorage(h, d.storage, env) == Ok(d.storage);
  }

  /** What Write puts on the server when it goes through. */
  lemma Written(s: State, desired: Spec, input: Input)
    requires desired.metadata.Some? && Write(s, desired, input).1
    ensures var c := Write(s, desired, input).0.cluster;
            && c.Some?
            && ((c == s.cluster && !WasChanged(c.value, desired)) || c.value == desired || c.value == Fresh(desired) ||
                (input.recovery.Some? && c.value == desired.(bootstrap := Some(Recovery(input.recovery.value)))))
  {
  }

  /** reconcileDBCluster goes through: the desired specification exists and is on the server afterwards. */
  predicate GoesThrough(h: Host, s: State, input: Input) {
    var desired := Desired(h, OrElse(s.cluster, TEMPLATE), input.env);
    input.catalogOk && desired.Ok? && Write(s, desired.value, input).1
  }

  lemma ProceedWritten(s: State, desired: Spec, input: Input)
    requires desired.metadata.Some? && input.catalogOk && Write(s, desired, input).1
    ensures Proceed(s, Ok(desired), input).cluster == Write(s, desired, input).0.cluster
  {
  }

  /** Each of the four things Write may leave on the server is a fixpoint of the inputs it came from. */
  lemma WrittenIsFixed(h: Host, base: Spec, env: Env, c: Spec, recovery: Option<string>)
    requires !Refused(h, base, env) && h.parse(DesiredSize(env)).Some?
    requires var d := Desired(h, base, env).value;
             (c == base && !WasChanged(c, d)) || c == d || c == Fresh(d) ||
             (recovery.Some? && c == d.(bootstrap := Some(Recovery(recovery.value))))
    ensures Desired(h, c, env) == Ok(c)
  {
    Fixpoint(h, base, env);
    if c == base { DetectorExact(h, base, env); }
    CreatedFixed(h, base, env, if recovery.Some? then Some(Recovery(recovery.value)) else None);
  }

  /** What then is on the server is a fixpoint of the same inputs. */
  lemma AppliedIsFixed(h: Host, s: State, input: Input)
    requires h.parse(DesiredSize(input.env)).Some? && GoesThrough(h, s, input)
    ensures var c := ReconcileOnce(h, s, input).cluster; c.Some? && Desired(h, c.value, input.env) == Ok(c.value)
  {
    var base := OrElse(s.cluster, TEMPLATE);
    var desired := Desired(h, base, input.env).value;
    Written(s, desired, input);
    ProceedWritten(s, desired, input);
    WrittenIsFixed(h, base, input.env, Write(s, desired, input).0.cluster.value, input.recovery);
  }

  /** Once a reconcile has gone through, the next one with the same inputs writes nothing. */
  lemma SteadyIsQuiet(h: Host, s: State, input: Input, next: Input)
    requires h.parse(DesiredSize(input.env)).Some? && GoesThrough(h, s, input) && next.env == input.env
    ensures !Writes(h, ReconcileOnce(h, s, input), next)
  {
    AppliedIsFixed(h, s, input);
  }

  /** Reconciles with the same inputs, while snapshots may be taken. */
  predicate Steady(events: seq<Event>, env: Env) {
    forall i :: 0 <= i < |events| ==>
      events[i].SnapshotTaken? || (events[i].Reconcile? && events[i].input.env == env)
  }

  lemma {:induction false} FixedStays(h: Host, s: State, events: seq<Event>, env: Env)
    requires s.cluster.Some? && Desired(h, s.cluster.value, env) == Ok(s.cluster.value) && Steady(events, env)
    ensures RunAll(h, s, events).cluster == s.cluster
    decreases events
  {
    if events != [] {
      assert events[0].SnapshotTaken? || events[0].input.env == env;
      if events[0].Reconcile? { StepCluster(h, s, events[0]); }
      FixedStays(h, Apply(h, s, events[0]), events[1..], env);
    }
  }

  /** A steady system: after a reconcile has gone through, no later one with the same inputs ever writes. */
  lemma SteadyStaysQuiet(h: Host, s: State, input: Input, events: seq<Event>, i: nat)
    requires h.parse(DesiredSize(input.env)).Some? && GoesThrough(h, s, input)
    requires Steady(events, input.env) && i < |events| && events[i].Reconcile?
    ensures !Writes(h, At(h, ReconcileOnce(h, s, input), events, i), events[i].input)
  {
    AppliedIsFixed(h, s, input);
    assert Steady(events[..i], input.env);
    FixedStays(h, ReconcileOnce(h, s, input), events[..i], input.env);
  }
}
