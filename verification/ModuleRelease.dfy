/** ReconcileModuleRelease (internal/reconcile/modulerelease.go): plan, apply, prune and the
    deferred commit, as a function of the persisted object, the cluster and the outcomes of
    the calls it makes, and as the method that runs phase by phase. */
module ModuleRelease {
  import opened Json
  import opened Digests
  import opened Inventory
  import opened Cluster
  import opened Prune
  import opened Status
  import opened Backoff
  import opened Reconcile

  datatype Spec = Spec(suspend: bool, path: string, version: string, values: Values, prune: bool,
                       serviceAccount: string)

  datatype Rendering = RenderError(resolution: bool) | Rendered(resources: seq<Resource>)

  datatype Drift = DriftError | DriftFound | NoDrift

  /** The outcomes of the calls one reconcile makes; `finalized` and `unfinalized` are the
      finalizer patches, `patched` the status patch. */
  datatype Env = Env(finalized: bool, rendering: Rendering, drift: Drift, impersonation: Impersonation,
                     apply: ApplyCall, prune: nat -> Calls, patched: bool, unfinalized: bool)

  /** extractReleaseUUID: the first non-empty UUID label. */
  function ExtractUUID(ms: seq<Value>): string {
    if ms == [] then ""
    else if StringAt(ms[0], LabelPath(LABEL_RELEASE_UUID)) != "" then StringAt(ms[0], LabelPath(LABEL_RELEASE_UUID))
    else ExtractUUID(ms[1..])
  }

  /** The UUID is that of the first manifest that has one, "" if none has. */
  lemma {:induction false} UUIDExactly(ms: seq<Value>)
    ensures ExtractUUID(ms) == "" <==>
            forall i :: 0 <= i < |ms| ==> StringAt(ms[i], LabelPath(LABEL_RELEASE_UUID)) == ""
    ensures ExtractUUID(ms) != "" ==>
              exists i :: 0 <= i < |ms| && StringAt(ms[i], LabelPath(LABEL_RELEASE_UUID)) == ExtractUUID(ms) &&
                forall j :: 0 <= j < i ==> StringAt(ms[j], LabelPath(LABEL_RELEASE_UUID)) == ""
  {
    if ms != [] && StringAt(ms[0], LabelPath(LABEL_RELEASE_UUID)) == "" {
      var rest := ms[1..];
      UUIDExactly(rest);
      assert forall j :: 1 <= j < |ms| ==> ms[j] == rest[j - 1];
      if ExtractUUID(rest) != "" {
        var i :| 0 <= i < |rest| && StringAt(rest[i], LabelPath(LABEL_RELEASE_UUID)) == ExtractUUID(rest) &&
                 forall j :: 0 <= j < i ==> StringAt(rest[j], LabelPath(LABEL_RELEASE_UUID)) == "";
        assert StringAt(ms[i + 1], LabelPath(LABEL_RELEASE_UUID)) == ExtractUUID(ms);
      }
    }
  }

  function WithUUID(st: Status, ms: seq<Value>): Status {
    if ExtractUUID(ms) != "" then st.(releaseUUID := ExtractUUID(ms)) else st
  }

  function WithDrift(st: Status, d: Drift): Status {
    match d
    case DriftError => st
    case DriftFound => Set(st, Drifted, True, DRIFT_DETECTED)
    case NoDrift => Unset(st, Drifted)
  }

  function PlannedDigests(p: Params, spec: Spec): DigestSet {
    DigestSet(ModuleSourceDigest(spec.path, spec.version), ConfigDigest(p.num, spec.values), NoDigest, NoDigest)
  }

  function RenderedDigests(p: Params, spec: Spec, rs: seq<Resource>): DigestSet {
    PlannedDigests(p, spec).(
      render := match RenderDigest(rs) case Some(d) => d case None => NoDigest,
      inventory := ComputeDigest(EntriesOf(rs)))
  }

  /** Everything between the resume check and the deferred commit. */
  function RunPhases(p: Params, spec: Spec, st0: Status, c: State, e: Env): Attempt {
    var st := MarkReconciling(st0, PROGRESSING);
    var d0 := PlannedDigests(p, spec);
    match e.rendering
    case RenderError(resolution) =>
      Stall(st, if resolution then RESOLUTION_FAILED else RENDER_FAILED, c, d0, "render", NO_PHASES)
    case Rendered(rs) =>
      var st := Set(st, ModuleResolved, True, "ModuleResolved");
      if RenderDigest(rs).None? then Stall(st, RENDER_FAILED, c, d0, "render digest", NO_PHASES)
      else if !Convertible(rs) then Stall(st, APPLY_FAILED, c, RenderedDigests(p, spec, rs), "convert", NO_PHASES)
      else
        var st := WithDrift(WithUUID(st, Manifests(rs)), e.drift);
        var d := RenderedDigests(p, spec, rs);
        var ph := NO_PHASES.(driftRan := true, driftFailed := e.drift == DriftError);
        if IsNoOp(d, LastAppliedDigests(st)) then Attempt(st, c, Verdict(NoOp, d, false, [], "", 0, ph))
        else ApplyPhase(p, spec, st, c, e, rs, d, ph)
  }

  function ApplyPhase(p: Params, spec: Spec, st: Status, c: State, e: Env, rs: seq<Resource>, d: DigestSet,
                      ph: Phases): Attempt {
    var sa := EffectiveServiceAccount(spec.serviceAccount, p.defaultServiceAccount);
    if sa != "" && e.impersonation != ImpersonationOk then Stall(st, IMPERSONATION_FAILED, c, d, "impersonation", ph)
    else match e.apply
      case ApplyFault(fault, done) =>
        var c' := Apply(c, Manifests(rs), done);
        var ph := ph.(applyRan := true, applyFailed := true);
        if sa != "" && fault == Forbidden then Stall(st, IMPERSONATION_FAILED, c', d, "apply", ph)
        else Attempt(MarkNotReady(st, APPLY_FAILED), c',
                     Verdict(FailedTransient, d, false, [], "apply", RetryDelay(st), ph))
      case ApplyOk =>
        PrunePhase(spec, Unset(st, Drifted), Apply(c, Manifests(rs), EVERY), e, EntriesOf(rs), d,
                   ph.(applyRan := true), sa)
  }

  function PrunePhase(spec: Spec, st: Status, c: State, e: Env, entries: seq<Entry>, d: DigestSet, ph: Phases,
                      sa: string): Attempt {
    var stale := StaleSet(PreviousEntries(st), entries);
    var ph := ph.(pruneRan := true);
    if !spec.prune || stale == [] then
      Attempt(MarkReady(st), c, Verdict(Applied, d, true, entries, "", 0, ph))
    else
      var c' := Pruned(c, st.releaseUUID, stale, e.prune);
      var errs := Errors(Fates(c, st.releaseUUID, stale, e.prune));
      if errs == [] then Attempt(MarkReady(st), c', Verdict(AppliedAndPruned, d, true, entries, "", 0, ph))
      else
        var ph := ph.(pruneFailed := true);
        if sa != "" && IsForbidden(errs) then
          Attempt(MarkStalled(st, IMPERSONATION_FAILED), c',
                  Verdict(FailedStalled, d, false, entries, "", STALLED_RECHECK, ph))
        else
          Attempt(MarkNotReady(st, PRUNE_FAILED), c',
                  Verdict(FailedTransient, d, false, entries, "prune", RetryDelay(st), ph))
  }

  function DeletionEnvOf(e: Env): DeletionEnv {
    DeletionEnv(e.impersonation, e.prune, e.patched, e.unfinalized)
  }

  /** One reconcile: the stored object, the cluster, the verdict if an attempt was made
      (whether or not its commit was stored) and the deletion events. */
  datatype Step = Step(release: Release<Spec>, cluster: State, verdict: Option<Verdict>, events: seq<Event>)

  function ReconcileStep(p: Params, r: Release<Spec>, c: State, e: Env): Step {
    if !r.finalizer then Step(r.(finalizer := e.finalized), c, None, [])
    else if r.deleting then
      var d := HandleDeletion(p, r.spec.prune, r.spec.serviceAccount, r.status.releaseUUID, r.annotations,
                              r.status, c, DeletionEnvOf(e));
      Step(r.(status := d.status, finalizer := d.finalizer), d.cluster, None, d.events)
    else if r.spec.suspend then
      Step(r.(status := if e.patched then MarkSuspended(r.status) else r.status), c, None, [])
    else
      var a := RunPhases(p, r.spec, r.status, c, e);
      Step(r.(status := if e.patched then Commit(a.status, a.verdict) else r.status), a.cluster, Some(a.verdict), [])
  }

  // The loop itself

  method ExtractReleaseUUID(ms: seq<Value>) returns (uuid: string)
    ensures uuid == ExtractUUID(ms)
  {
    for i := 0 to |ms|
      invariant ExtractUUID(ms) == ExtractUUID(ms[i..])
    {
      uuid := StringAt(ms[i], LabelPath(LABEL_RELEASE_UUID));
      if uuid != "" {
        return;
      }
    }
    uuid := "";
  }

  method DetectDrift(subject: Subject, drift: Drift) returns (failed: bool)
    modifies subject
    ensures subject.st == WithDrift(old(subject.st), drift) && failed == (drift == DriftError)
  {
    match drift {
      case DriftError => return true;
      case DriftFound => subject.SetCondition(Drifted, True, DRIFT_DETECTED);
      case NoDrift => subject.DeleteCondition(Drifted);
    }
    return false;
  }

  /** pruneStaleResources: outcome, success, and whether a retryable error is returned. */
  method PruneStaleResources(spec: Spec, subject: Subject, store: Store, stale: seq<Entry>, sa: string,
                             api: nat -> Calls)
    returns (outcome: Outcome, reconciled: bool, failed: bool)
    modifies subject, store
    ensures var st, c := old(subject.st), old(store.objects);
            var errs := Errors(Fates(c, st.releaseUUID, stale, api));
            if !spec.prune || stale == [] then
              subject.st == st && store.objects == c && outcome == Applied && reconciled && !failed
            else
              && store.objects == Pruned(c, st.releaseUUID, stale, api)
              && reconciled == (errs == [])
              && failed == (errs != [] && !(sa != "" && IsForbidden(errs)))
              && outcome == (if reconciled then AppliedAndPruned else if failed then FailedTransient else FailedStalled)
              && subject.st == if reconciled then st
                               else if failed then MarkNotReady(st, PRUNE_FAILED)
                               else MarkStalled(st, IMPERSONATION_FAILED)
  {
    if !spec.prune || |stale| == 0 {
      return Applied, true, false;
    }
    var result := store.Prune(subject.st.releaseUUID, stale, api);
    if result.errs != [] {
      if sa != "" && IsForbidden(result.errs) {
        subject.Stall(IMPERSONATION_FAILED);
        return FailedStalled, false, false;
      }
      subject.Fail(PRUNE_FAILED);
      return FailedTransient, false, true;
    }
    return AppliedAndPruned, true, false;
  }

  /** Phases 5 and 6 on the shared locals of the loop. */
  method ApplyAndPrune(p: Params, spec: Spec, subject: Subject, store: Store, e: Env, rs: seq<Resource>,
                       digests: DigestSet, planned: Phases) returns (v: Verdict)
    modifies subject, store
    ensures Attempt(subject.st, store.objects, v) ==
            ApplyPhase(p, spec, old(subject.st), old(store.objects), e, rs, digests, planned)
  {
    var phases := planned;
    var entries := EntriesOf(rs);
    var stale := ComputeStaleSet(PreviousEntries(subject.st), entries);
    var sa := EffectiveServiceAccount(spec.serviceAccount, p.defaultServiceAccount);
    if sa != "" && e.impersonation != ImpersonationOk {
      subject.Stall(IMPERSONATION_FAILED);
      return Verdict(FailedStalled, digests, false, [], "impersonation", STALLED_RECHECK, phases);
    }
    phases := phases.(applyRan := true);
    var failure := ApplyAll(store, Manifests(rs), e.apply);
    if failure.Some? {
      phases := phases.(applyFailed := true);
      if sa != "" && failure.value == Forbidden {
        subject.Stall(IMPERSONATION_FAILED);
        return Verdict(FailedStalled, digests, false, [], "apply", STALLED_RECHECK, phases);
      }
      var retry := RetryDelay(subject.st);
      subject.Fail(APPLY_FAILED);
      return Verdict(FailedTransient, digests, false, [], "apply", retry, phases);
    }
    subject.DeleteCondition(Drifted);
    phases := phases.(pruneRan := true);
    var retry := RetryDelay(subject.st);
    var outcome, reconciled, failed := PruneStaleResources(spec, subject, store, stale, sa, e.prune);
    if failed {
      return Verdict(outcome, digests, false, entries, "prune", retry, phases.(pruneFailed := true));
    }
    if !reconciled {
      return Verdict(outcome, digests, false, entries, "", STALLED_RECHECK, phases.(pruneFailed := true));
    }
    subject.Succeed();
    return Verdict(outcome, digests, true, entries, "", 0, phases);
  }

  /** The body of the loop up to its return, which the deferred commit follows. */
  method RunAttempt(p: Params, spec: Spec, subject: Subject, store: Store, e: Env) returns (v: Verdict)
    modifies subject, store
    ensures Attempt(subject.st, store.objects, v) == RunPhases(p, spec, old(subject.st), old(store.objects), e)
  {
    subject.Reconcile(PROGRESSING);
    var digests := PlannedDigests(p, spec);
    if e.rendering.RenderError? {
      subject.Stall(if e.rendering.resolution then RESOLUTION_FAILED else RENDER_FAILED);
      return Verdict(FailedStalled, digests, false, [], "render", STALLED_RECHECK, NO_PHASES);
    }
    var rs := e.rendering.resources;
    subject.SetCondition(ModuleResolved, True, "ModuleResolved");
    var renderDigest := ComputeRenderDigest(rs);
    if renderDigest.None? {
      subject.Stall(RENDER_FAILED);
      return Verdict(FailedStalled, digests, false, [], "render digest", STALLED_RECHECK, NO_PHASES);
    }
    digests := digests.(render := renderDigest.value, inventory := ComputeDigest(EntriesOf(rs)));
    if !Convertible(rs) {
      subject.Stall(APPLY_FAILED);
      return Verdict(FailedStalled, digests, false, [], "convert", STALLED_RECHECK, NO_PHASES);
    }
    var uuid := ExtractReleaseUUID(Manifests(rs));
    if uuid != "" {
      subject.st := subject.st.(releaseUUID := uuid);
    }
    var isNoOp := IsNoOp(digests, LastAppliedDigests(subject.st));
    var driftFailed := DetectDrift(subject, e.drift);
    var phases := NO_PHASES.(driftRan := true, driftFailed := driftFailed);
    if isNoOp {
      return Verdict(NoOp, digests, false, [], "", 0, phases);
    }
    v := ApplyAndPrune(p, spec, subject, store, e, rs, digests, phases);
  }

  /** One call of ReconcileModuleRelease against the API server. */
  method ReconcileModuleRelease(p: Params, server: Server<Spec>, e: Env)
    modifies server`release, server`events, server.store
    ensures var s := ReconcileStep(p, old(server.release), old(server.store.objects), e);
            && server.release == s.release
            && server.store.objects == s.cluster
            && server.events == old(server.events) + s.events
  {
    var r := server.release;
    if !r.finalizer {
      server.release := r.(finalizer := e.finalized);
      return;
    }
    if r.deleting {
      server.Delete(p, r.spec.prune, r.spec.serviceAccount, r.status.releaseUUID, DeletionEnvOf(e));
      return;
    }
    var subject := new Subject(r.status);
    if r.spec.suspend {
      subject.Suspend();
      server.PatchStatus(subject, e.patched);
      return;
    }
    var v := RunAttempt(p, r.spec, subject, server.store, e);
    CommitStatus(subject, v);
    server.PatchStatus(subject, e.patched);
  }
}
