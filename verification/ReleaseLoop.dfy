/** ReconcileRelease (internal/reconcile/release.go): dependencies, source, fetch, path, render, apply,
    prune and the deferred commit, as a function of the stored object, the cluster and the outcomes
    of the calls, and as the method that runs phase by phase. */
module ReleaseLoop {
  import opened Json
  import opened Digests
  import opened Inventory
  import opened Cluster
  import opened Prune
  import opened Status
  import opened Backoff
  import opened Reconcile

  /** An empty namespace means the release's own. */
  datatype Dependency = Dependency(namespace: string, name: string)

  /** `interval` in seconds, 0 when unset. */
  datatype Spec = Spec(suspend: bool, interval: nat, dependsOn: seq<Dependency>, prune: bool, serviceAccount: string)

  /** Reading another Release of the same namespace. */
  datatype Lookup = Missing | LookupError | Found(status: Status)

  datatype Source = SourceReady(digest: Digest) | SourceGone | SourceNotReady
  datatype Navigation = PathFound | PathMissing | FileMissing
  datatype RenderFault = Unsupported | Unresolved | Unrendered
  datatype Package = PackageFault(fault: RenderFault) | OtherKind | Package(resources: seq<Resource>)

  datatype Env = Env(finalized: bool, lookup: string -> Lookup, source: Source, fetched: bool, navigation: Navigation,
                     package: Package, impersonation: Impersonation, apply: ApplyCall, prune: nat -> Calls,
                     patched: bool, unfinalized: bool)

  const DEFAULT_INTERVAL: nat := 300

  function Interval(spec: Spec): nat {
    if spec.interval == 0 then DEFAULT_INTERVAL else spec.interval
  }

  // Dependencies

  datatype Check = Satisfied | Waiting(name: string) | Refused

  /** The dependency names a Release of the same namespace that is there and Ready. */
  predicate Met(namespace: string, d: Dependency, lookup: string -> Lookup) {
    && (d.namespace == "" || d.namespace == namespace)
    && lookup(d.name).Found? && IsReady(lookup(d.name).status)
  }

  /** checkDependsOn: the first dependency that is not met decides. */
  function CheckDependsOn(namespace: string, deps: seq<Dependency>, lookup: string -> Lookup): Check {
    if deps == [] then Satisfied
    else if Met(namespace, deps[0], lookup) then CheckDependsOn(namespace, deps[1..], lookup)
    else if deps[0].namespace != "" && deps[0].namespace != namespace then Refused
    else if lookup(deps[0].name).LookupError? then Refused
    else Waiting(deps[0].name)
  }

  /** All dependencies met, or the first that is not met is refused or waited for. */
  lemma {:induction false} CheckExactly(namespace: string, deps: seq<Dependency>, lookup: string -> Lookup)
    ensures CheckDependsOn(namespace, deps, lookup) == Satisfied <==>
            forall i :: 0 <= i < |deps| ==> Met(namespace, deps[i], lookup)
    ensures CheckDependsOn(namespace, deps, lookup) != Satisfied ==>
            exists i :: 0 <= i < |deps| && !Met(namespace, deps[i], lookup)
              && (forall j :: 0 <= j < i ==> Met(namespace, deps[j], lookup))
              && CheckDependsOn(namespace, deps, lookup) ==
                 if (deps[i].namespace != "" && deps[i].namespace != namespace) || lookup(deps[i].name).LookupError?
                 then Refused else Waiting(deps[i].name)
  {
    if deps != [] && Met(namespace, deps[0], lookup) {
      CheckExactly(namespace, deps[1..], lookup);
      if CheckDependsOn(namespace, deps, lookup) != Satisfied {
        var k :| 0 <= k < |deps[1..]| && !Met(namespace, deps[1..][k], lookup)
          && (forall j :: 0 <= j < k ==> Met(namespace, deps[1..][j], lookup))
          && CheckDependsOn(namespace, deps[1..], lookup) ==
             if (deps[1..][k].namespace != "" && deps[1..][k].namespace != namespace)
                || lookup(deps[1..][k].name).LookupError?
             then Refused else Waiting(deps[1..][k].name);
        assert deps[k + 1] == deps[1..][k];
        assert forall j :: 1 <= j < k + 1 ==> deps[j] == deps[1..][j - 1];
      } else {
        assert forall j :: 1 <= j < |deps| ==> deps[j] == deps[1..][j - 1];
      }
    }
  }

  /** The loop over spec.dependsOn, leaving at the first blocker. */
  method CheckDependencies(namespace: string, deps: seq<Dependency>, lookup: string -> Lookup) returns (check: Check)
    ensures check == CheckDependsOn(namespace, deps, lookup)
  {
    for i := 0 to |deps|
      invariant CheckDependsOn(namespace, deps, lookup) == CheckDependsOn(namespace, deps[i..], lookup)
    {
      var dep := deps[i];
      if dep.namespace != "" && dep.namespace != namespace {
        return Refused;
      }
      match lookup(dep.name) {
        case Missing => return Waiting(dep.name);
        case LookupError => return Refused;
        case Found(other) =>
          if !IsReady(other) {
            return Waiting(dep.name);
          }
      }
    }
    return Satisfied;
  }

  // Phases

  function Wait(st: Status, reason: string, c: State, d: DigestSet, retryAfter: nat, ph: Phases): Attempt {
    Attempt(MarkNotReady(st, reason), c, Verdict(FailedTransient, d, false, [], reason, retryAfter, ph))
  }

  function RenderReason(f: RenderFault): string {
    match f
    case Unsupported => UNSUPPORTED_KIND
    case Unresolved => RESOLUTION_FAILED
    case Unrendered => RENDER_FAILED
  }

  /** A phase failure before anything is applied, or what there is to apply. */
  datatype Prepared = Failure(attempt: Attempt) | Resources(rs: seq<Resource>, digests: DigestSet)

  function Prepare(p: Params, spec: Spec, st: Status, c: State, e: Env): Prepared {
    match e.source
    case SourceGone => Failure(Stall(st, SOURCE_NOT_READY, c, NO_DIGESTS, "source", NO_PHASES))
    case SourceNotReady => Failure(Wait(st, SOURCE_NOT_READY, c, NO_DIGESTS, Interval(spec), NO_PHASES))
    case SourceReady(digest) =>
      var d := NO_DIGESTS.(source := digest);
      if !e.fetched then Failure(Wait(st, FETCH_FAILED, c, d, Interval(spec), NO_PHASES))
      else if e.navigation == PathMissing then Failure(Stall(st, PATH_NOT_FOUND, c, d, "path", NO_PHASES))
      else if e.navigation == FileMissing then Failure(Stall(st, RELEASE_FILE_NOT_FOUND, c, d, "path", NO_PHASES))
      else match e.package
        case PackageFault(f) => Failure(Stall(st, RenderReason(f), c, d, "render", NO_PHASES))
        case OtherKind => Failure(Stall(st, UNSUPPORTED_KIND, c, d, "kind", NO_PHASES))
        case Package(rs) =>
          if RenderDigest(rs).None? then Failure(Stall(st, RENDER_FAILED, c, d, "render digest", NO_PHASES))
          else Resources(rs, RenderedDigests(p, digest, rs))
  }

  /** A Release carries no values: its config digest is that of no input. */
  function RenderedDigests(p: Params, source: Digest, rs: seq<Resource>): DigestSet {
    DigestSet(source, ConfigDigest(p.num, Absent),
              match RenderDigest(rs) case Some(d) => d case None => NoDigest,
              ComputeDigest(EntriesOf(rs)))
  }

  /** Everything after the dependency check, up to the deferred commit. */
  function RunPhases(p: Params, spec: Spec, st0: Status, c: State, e: Env): Attempt {
    var st := MarkReconciling(st0, PROGRESSING);
    match Prepare(p, spec, st, c, e)
    case Failure(a) => a
    case Resources(rs, d) =>
      if IsNoOp(d, LastAppliedDigests(st)) then Attempt(st, c, Verdict(NoOp, d, false, [], "", 0, NO_PHASES))
      else ApplyPhase(p, spec, st, c, e, rs, d)
  }

  /** Unlike the ModuleRelease loop, a forbidden apply or prune is retried, not stalled, and the
      prune runs without an owner UUID. */
  function ApplyPhase(p: Params, spec: Spec, st: Status, c: State, e: Env, rs: seq<Resource>, d: DigestSet): Attempt {
    var sa := EffectiveServiceAccount(spec.serviceAccount, p.defaultServiceAccount);
    if !Convertible(rs) then Stall(st, APPLY_FAILED, c, d, "convert", NO_PHASES)
    else if sa != "" && e.impersonation != ImpersonationOk then
      Stall(st, IMPERSONATION_FAILED, c, d, "impersonation", NO_PHASES)
    else if e.apply.ApplyFault? then
      Wait(st, APPLY_FAILED, Apply(c, Manifests(rs), e.apply.done), d, RetryDelay(st),
           NO_PHASES.(applyRan := true, applyFailed := true))
    else PrunePhase(spec, Unset(st, Drifted), Apply(c, Manifests(rs), EVERY), e, EntriesOf(rs), d)
  }

  function PrunePhase(spec: Spec, st: Status, c: State, e: Env, entries: seq<Entry>, d: DigestSet): Attempt {
    var stale := StaleSet(PreviousEntries(st), entries);
    var ph := NO_PHASES.(applyRan := true, pruneRan := true);
    if !spec.prune || stale == [] then
      Attempt(MarkReady(st), c, Verdict(Applied, d, true, entries, "", 0, ph))
    else
      var c' := Pruned(c, "", stale, e.prune);
      if Errors(Fates(c, "", stale, e.prune)) != [] then
        Wait(st, PRUNE_FAILED, c', d, RetryDelay(st), ph.(pruneFailed := true))
      else Attempt(MarkReady(st), c', Verdict(AppliedAndPruned, d, true, entries, "", 0, ph))
  }

  function DeletionEnvOf(e: Env): DeletionEnv {
    DeletionEnv(e.impersonation, e.prune, e.patched, e.unfinalized)
  }

  /** One reconcile of a Release in its namespace. */
  datatype Step = Step(release: Release<Spec>, cluster: State, verdict: Option<Verdict>, events: seq<Event>)

  function ReconcileStep(p: Params, namespace: string, r: Release<Spec>, c: State, e: Env): Step {
    if !r.finalizer then Step(r.(finalizer := e.finalized), c, None, [])
    else if r.deleting then
      var d := HandleDeletion(p, r.spec.prune, r.spec.serviceAccount, "", r.annotations, r.status, c, DeletionEnvOf(e));
      Step(r.(status := d.status, finalizer := d.finalizer), d.cluster, None, d.events)
    else if r.spec.suspend then
      Step(r.(status := if e.patched then MarkSuspended(r.status) else r.status), c, None, [])
    else if CheckDependsOn(namespace, r.spec.dependsOn, e.lookup) != Satisfied then
      Step(r.(status := if e.patched then MarkNotReady(r.status, DEPENDENCIES_NOT_READY) else r.status), c, None, [])
    else
      var a := RunPhases(p, r.spec, r.status, c, e);
      Step(r.(status := if e.patched then Commit(a.status, a.verdict) else r.status), a.cluster, Some(a.verdict), [])
  }

  // The loop itself

  /** phaseFail */
  datatype PhaseFail = PhaseFail(outcome: Outcome, errMsg: string, retryAfter: nat)

  method ResolveSource(subject: Subject, spec: Spec, source: Source) returns (fail: Option<PhaseFail>)
    modifies subject
    ensures match source
            case SourceReady(_) => fail == None && subject.st == old(subject.st)
            case SourceGone =>
              && fail == Some(PhaseFail(FailedStalled, "source", STALLED_RECHECK))
              && subject.st == MarkStalled(old(subject.st), SOURCE_NOT_READY)
            case SourceNotReady =>
              && fail == Some(PhaseFail(FailedTransient, SOURCE_NOT_READY, Interval(spec)))
              && subject.st == MarkNotReady(old(subject.st), SOURCE_NOT_READY)
  {
    if source.SourceReady? {
      return None;
    }
    if source.SourceGone? {
      subject.Stall(SOURCE_NOT_READY);
      return Some(PhaseFail(FailedStalled, "source", STALLED_RECHECK));
    }
    subject.Fail(SOURCE_NOT_READY);
    return Some(PhaseFail(FailedTransient, SOURCE_NOT_READY, Interval(spec)));
  }

  method FetchArtifact(subject: Subject, spec: Spec, fetched: bool) returns (fail: Option<PhaseFail>)
    modifies subject
    ensures fetched ==> fail == None && subject.st == old(subject.st)
    ensures !fetched ==> && fail == Some(PhaseFail(FailedTransient, FETCH_FAILED, Interval(spec)))
                         && subject.st == MarkNotReady(old(subject.st), FETCH_FAILED)
  {
    if !fetched {
      subject.Fail(FETCH_FAILED);
      return Some(PhaseFail(FailedTransient, FETCH_FAILED, Interval(spec)));
    }
    return None;
  }

  method NavigatePath(subject: Subject, navigation: Navigation) returns (fail: Option<PhaseFail>)
    modifies subject
    ensures navigation == PathFound ==> fail == None && subject.st == old(subject.st)
    ensures navigation != PathFound ==>
              && fail == Some(PhaseFail(FailedStalled, "path", STALLED_RECHECK))
              && subject.st == MarkStalled(old(subject.st),
                                           if navigation == FileMissing then RELEASE_FILE_NOT_FOUND else PATH_NOT_FOUND)
  {
    if navigation == PathFound {
      return None;
    }
    var reason := PATH_NOT_FOUND;
    if navigation == FileMissing {
      reason := RELEASE_FILE_NOT_FOUND;
    }
    subject.Stall(reason);
    return Some(PhaseFail(FailedStalled, "path", STALLED_RECHECK));
  }

  method RenderPackage(subject: Subject, package: Package) returns (fail: Option<PhaseFail>)
    modifies subject
    ensures match package
            case Package(_) => fail == None && subject.st == old(subject.st)
            case OtherKind =>
              && fail == Some(PhaseFail(FailedStalled, "kind", STALLED_RECHECK))
              && subject.st == MarkStalled(old(subject.st), UNSUPPORTED_KIND)
            case PackageFault(f) =>
              && fail == Some(PhaseFail(FailedStalled, "render", STALLED_RECHECK))
              && subject.st == MarkStalled(old(subject.st), RenderReason(f))
  {
    match package {
      case PackageFault(f) =>
        subject.Stall(RenderReason(f));
        return Some(PhaseFail(FailedStalled, "render", STALLED_RECHECK));
      case OtherKind =>
        subject.Stall(UNSUPPORTED_KIND);
        return Some(PhaseFail(FailedStalled, "kind", STALLED_RECHECK));
      case Package(_) =>
        return None;
    }
  }

  /** The verdict the deferred function sees after applyFail. */
  function Failed(fail: PhaseFail, d: DigestSet, ph: Phases): Verdict {
    Verdict(fail.outcome, d, false, [], fail.errMsg, fail.retryAfter, ph)
  }

  /** applyAndPruneRelease with the caller's handling of its result. */
  method ApplyAndPrune(p: Params, spec: Spec, subject: Subject, store: Store, e: Env, rs: seq<Resource>, d: DigestSet)
    returns (v: Verdict)
    modifies subject, store
    ensures Attempt(subject.st, store.objects, v) ==
            ApplyPhase(p, spec, old(subject.st), old(store.objects), e, rs, d)
  {
    if !Convertible(rs) {
      subject.Stall(APPLY_FAILED);
      return Failed(PhaseFail(FailedStalled, "convert", STALLED_RECHECK), d, NO_PHASES);
    }
    var entries := EntriesOf(rs);
    var stale := ComputeStaleSet(PreviousEntries(subject.st), entries);
    var sa := EffectiveServiceAccount(spec.serviceAccount, p.defaultServiceAccount);
    if sa != "" && e.impersonation != ImpersonationOk {
      subject.Stall(IMPERSONATION_FAILED);
      return Failed(PhaseFail(FailedStalled, "impersonation", STALLED_RECHECK), d, NO_PHASES);
    }
    var phases := NO_PHASES.(applyRan := true);
    var failure := ApplyAll(store, Manifests(rs), e.apply);
    if failure.Some? {
      var retry := RetryDelay(subject.st);
      subject.Fail(APPLY_FAILED);
      return Failed(PhaseFail(FailedTransient, APPLY_FAILED, retry), d, phases.(applyFailed := true));
    }
    subject.DeleteCondition(Drifted);
    phases := phases.(pruneRan := true);
    var outcome := Applied;
    if spec.prune && |stale| > 0 {
      var result := store.Prune("", stale, e.prune);
      if result.errs != [] {
        var retry := RetryDelay(subject.st);
        subject.Fail(PRUNE_FAILED);
        return Failed(PhaseFail(FailedTransient, PRUNE_FAILED, retry), d, phases.(pruneFailed := true));
      }
      outcome := AppliedAndPruned;
    }
    subject.Succeed();
    return Verdict(outcome, d, true, entries, "", 0, phases);
  }

  method RunAttempt(p: Params, spec: Spec, subject: Subject, store: Store, e: Env) returns (v: Verdict)
    modifies subject, store
    ensures Attempt(subject.st, store.objects, v) == RunPhases(p, spec, old(subject.st), old(store.objects), e)
  {
    subject.Reconcile(PROGRESSING);
    var digests := NO_DIGESTS;
    var fail := ResolveSource(subject, spec, e.source);
    if fail.Some? {
      return Failed(fail.value, digests, NO_PHASES);
    }
    digests := digests.(source := e.source.digest);
    fail := FetchArtifact(subject, spec, e.fetched);
    if fail.Some? {
      return Failed(fail.value, digests, NO_PHASES);
    }
    fail := NavigatePath(subject, e.navigation);
    if fail.Some? {
      return Failed(fail.value, digests, NO_PHASES);
    }
    fail := RenderPackage(subject, e.package);
    if fail.Some? {
      return Failed(fail.value, digests, NO_PHASES);
    }
    var rs := e.package.resources;
    var renderDigest := ComputeRenderDigest(rs);
    if renderDigest.None? {
      subject.Stall(RENDER_FAILED);
      return Failed(PhaseFail(FailedStalled, "render digest", STALLED_RECHECK), digests, NO_PHASES);
    }
    digests := DigestSet(digests.source, ConfigDigest(p.num, Absent), renderDigest.value, ComputeDigest(EntriesOf(rs)));
    if IsNoOp(digests, LastAppliedDigests(subject.st)) {
      return Verdict(NoOp, digests, false, [], "", 0, NO_PHASES);
    }
    v := ApplyAndPrune(p, spec, subject, store, e, rs, digests);
  }

  /** One call of ReconcileRelease against the API server. */
  method ReconcileRelease(p: Params, namespace: string, server: Server<Spec>, e: Env)
    modifies server`release, server`events, server.store
    ensures var s := ReconcileStep(p, namespace, old(server.release), old(server.store.objects), e);
            && server.release == s.release
            && server.store.objects == s.cluster
            && server.events == old(server.events) + s.events
  {
    var r := server.release;
    if !r.finalizer {
      server.release := r.(finalizer := e.finalized);
      return;
    }
    if r.deleting {
      server.Delete(p, r.spec.prune, r.spec.serviceAccount, "", DeletionEnvOf(e));
      return;
    }
    var subject := new Subject(r.status);
    if r.spec.suspend {
      subject.Suspend();
      server.PatchStatus(subject, e.patched);
      return;
    }
    var check := CheckDependencies(namespace, r.spec.dependsOn, e.lookup);
    if check != Satisfied {
      subject.Fail(DEPENDENCIES_NOT_READY);
      server.PatchStatus(subject, e.patched);
      return;
    }
    var v := RunAttempt(p, r.spec, subject, server.store, e);
    CommitStatus(subject, v);
    server.PatchStatus(subject, e.patched);
  }
}
