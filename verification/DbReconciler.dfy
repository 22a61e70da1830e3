/**
 The reconciler in its own form: methods that edit the cluster specification and the status in place,
 proved against DbCluster.Desired and DbRuns.ReconcileOnce.
 */
module DbReconciler {
  import opened Wrappers
  import opened DbCluster
  import opened DbRuns
  import Retention

  class Reconciler {
    const h: Host
    /** The in-memory copy of the cluster specification that reconcileClusterSpec edits. */
    var spec: Spec
    /** What the API server and the NooBaa status hold. */
    var state: State

    constructor (h: Host, state: State)
      ensures this.h == h && this.state == state
    {
      this.h, this.state, this.spec := h, state, TEMPLATE;
    }

    /** The last loop of setPostgresConfig, over the overrides in any order. */
    method ApplyOverrides(overrides: Params)
      modifies `spec
      ensures spec == old(spec).(parameters := Some(WithOverrides(OrElse(old(spec).parameters, map[]), overrides)))
    {
      var was := OrElse(spec.parameters, map[]);
      var desired := was;
      var todo := overrides.Keys;
      while todo != {}
        invariant todo <= overrides.Keys
        invariant forall k :: k in desired <==>
            k in was || (k in overrides && k !in todo && Lookup(was, k) != overrides[k])
        invariant forall k :: k in desired ==>
            desired[k] == if k in overrides && k !in todo then overrides[k] else was[k]
        decreases todo
      {
        var k :| k in todo;
        if Lookup(desired, k) != overrides[k] {
          desired := desired[k := overrides[k]];
        }
        todo := todo - {k};
      }
      assert desired == WithOverrides(was, overrides);
      spec := spec.(parameters := Some(desired));
    }

    /** setDesiredStorageConf; on an error the specification is not written, so what is left of it does not matter. */
    method SetDesiredStorageConf(env: Env) returns (ok: bool)
      modifies `spec
      ensures ok == DesiredStorage(h, old(spec).storage, env).Ok?
      ensures ok ==> spec == old(spec).(storage := DesiredStorage(h, old(spec).storage, env).value)
    {
      if spec.storage.template.None? {
        spec := spec.(storage := spec.storage.(template := Some(PvcTemplate([], ""))));
      }
      var mode := if env.rwo then ReadWriteOnce else ReadWriteOncePod;
      spec := spec.(storage := spec.storage.(template := Some(spec.storage.template.value.(accessModes := [mode]))));
      if env.storageClass.None? { return false; }
      spec := spec.(storage := spec.storage.(storageClass := env.storageClass));
      var desiredSize := DesiredSize(env);
      if spec.storage.size != "" {
        var current := h.parse(spec.storage.size);
        if current.None? { return false; }
        var desired := h.parse(desiredSize);
        if desired.None? { return false; }
        if current.value > desired.value {
          desiredSize := spec.storage.size;
        }
      }
      spec := spec.(storage := spec.storage.(size := desiredSize));
      return true;
    }

    /** reconcileClusterSpec. */
    method ReconcileClusterSpec(env: Env) returns (ok: bool)
      modifies `spec
      ensures ok == Desired(h, old(spec), env).Ok?
      ensures ok ==> Desired(h, old(spec), env) == Ok(spec)
    {
      spec := spec.(metadata := DesiredMetadata(spec.metadata), image := Some(ImageRef(env.catalog, env.major)),
                    instances := env.instances, resources := env.resources);
      ok := SetDesiredStorageConf(env);
      if !ok { return; }
      spec := spec.(affinity := DesiredAffinity(spec.affinity, env), priorityClass := env.priorityClass,
                    monitoring := DesiredMonitoring(spec.monitoring, env),
                    certificates := DesiredCertificates(spec.certificates, env), failoverDelay := FAILOVER_DELAY);
      ApplyOverrides(Overrides(h, spec.storage.size, env));
      var backup := DesiredBackup(spec.backup, env);
      if backup.Err? { return false; }
      spec := spec.(backup := backup.value);
    }

    /** cleanupDBBackup. */
    method CleanupBackup(deleted: bool) returns (ok: bool)
      modifies `state
      ensures (state, ok) == Cleanup(old(state), deleted)
    {
      ok := !state.scheduled || deleted;
      if ok { state := state.(scheduled := false); }
    }

    /** reconcileClusterRecovery. */
    method ReconcileClusterRecovery(snapshot: string, input: Input) returns (ok: bool)
      modifies `spec, `state
      ensures var r := Recover(old(state), old(spec), snapshot, input);
              state == r.0 && ok == r.1.Some? && (ok ==> spec == r.1.value)
    {
      state := state.(recovery := Some(RecoveryStatus(Pending, snapshot)));
      if input.runningPods != Some(0) { return false; }
      spec := spec.(bootstrap := Some(Recovery(snapshot)));
      ok := CleanupBackup(input.cleanupOk);
    }

    method CreateCluster(input: Input) returns (ok: bool)
      modifies `state
      ensures (state, ok) == Create(old(state), spec, input.recovery, input.createOk)
    {
      if !input.createOk { return false; }
      var before := state.recovery;
      state := state.(cluster := Some(spec), wasReady := false);
      if spec.bootstrap.None? || !spec.bootstrap.value.Recovery? {
        state := state.(status := Creating);
      } else {
        var snapshot := "";
        if input.recovery.Some? {
          snapshot := input.recovery.value;
        } else if before.Some? {
          snapshot := before.value.snapshot;
        }
        state := state.(status := Recovering, recovery := Some(RecoveryStatus(Running, snapshot)));
      }
      return true;
    }

    /** reconcileDBCluster after the desired specification is set, for a cluster that does not exist yet. */
    method WriteNew(input: Input) returns (ok: bool)
      requires state.cluster.None? && spec.metadata.Some?
      modifies `spec, `state
      ensures (state, ok) == Write(old(state), old(spec), input)
    {
      if input.recovery.None? {
        spec := Fresh(spec);
      } else {
        ok := ReconcileClusterRecovery(input.recovery.value, input);
        if !ok { return; }
      }
      ok := CreateCluster(input);
    }

    /** reconcileDBCluster. */
    method ReconcileDbCluster(input: Input) returns (ok: bool)
      modifies `spec, `state
      ensures var desired := Desired(h, OrElse(old(state).cluster, TEMPLATE), input.env);
              if desired.Err? then state == old(state) && !ok
              else (state, ok) == Write(old(state), desired.value, input)
      ensures state.snapshots == old(state).snapshots
    {
      spec := OrElse(state.cluster, TEMPLATE);
      var existing := spec;
      ok := ReconcileClusterSpec(input.env);
      if !ok { return; }
      WriteSnapshots(state, spec, input);
      if state.cluster.None? {
        ok := WriteNew(input);
      } else if WasChanged(existing, spec) {
        if !input.updateOk { return false; }
        state := state.(cluster := Some(spec), status := AfterSpecUpdate(state.status));
      }
    }

    /**
     reconcileBackupRetention: the listing the server gives for its snapshots, then the deletions.  The
     deletion loop is Retention.DeleteOldest.
     */
    method ReconcileBackupRetention(max: int, input: Input)
      requires input.listed.Some? ==>
                 Retention.UniqueNames(input.listed.value) && Retention.NameSet(input.listed.value) <= state.snapshots
      modifies `state
      ensures state == ReconcileRetention(old(state), max, input)
    {
      if max == 0 || input.listed.None? { return; }
      var r := Retention.ReconcileBackupRetention(input.listed.value, state.snapshots, max, input.recovery,
          input.failing);
      if r.Done? {
        state := state.(snapshots := r.server, backup := Some(BackupStatus(r.total, r.available)));
      }
    }

    /** reconcileDBBackup. */
    method ReconcileDbBackup(input: Input)
      requires input.listed.Some? ==>
                 Retention.UniqueNames(input.listed.value) && Retention.NameSet(input.listed.value) <= state.snapshots
      modifies `state
      ensures state == ReconcileBackup(old(state), input)
    {
      if input.env.backup.NoBackup? {
        var ok := CleanupBackup(input.cleanupOk);
        if ok { state := state.(backup := None); }
        return;
      }
      if state.backup.None? {
        state := state.(backup := Some(BackupStatus(0, [])));
      }
      if !input.env.backup.VolumeSnapshot? || !input.schedules { return; }
      state := state.(scheduled := true);
      ReconcileBackupRetention(input.env.backup.maxSnapshots, input);
    }

    /** ReconcileCNPGCluster; the alert silencer at its end cannot change the outcome. */
    method Reconcile(input: Input)
      requires input.listed.Some? ==>
                 Retention.UniqueNames(input.listed.value) && Retention.NameSet(input.listed.value) <= state.snapshots
      modifies `spec, `state
      ensures state == ReconcileOnce(h, old(state), input)
    {
      if !input.catalogOk { return; }
      ghost var desired := Desired(h, OrElse(state.cluster, TEMPLATE), input.env);
      var ok := ReconcileDbCluster(input);
      FinishReconcile(ok, input);
      assert state == Proceed(old(state), desired, input);
    }

    /** The part of ReconcileCNPGCluster after reconcileDBCluster. */
    method FinishReconcile(ok: bool, input: Input)
      requires input.listed.Some? ==>
                 Retention.UniqueNames(input.listed.value) && Retention.NameSet(input.listed.value) <= state.snapshots
      modifies `state
      ensures state == Finish(old(state), ok, input)
    {
      if !ok || state.cluster.None? || !input.ready { return; }
      state := state.(status := Ready, actualSize := state.cluster.value.storage.size, wasReady := true);
      if state.recovery.Some? {
        state := state.(recovery := Some(state.recovery.value.(phase := Completed)));
      }
      ReconcileDbBackup(input);
    }
  }
}
