/** What one reconcile of a Release comes to, told from its inputs: outcome, Ready reason, phases, digests,
    and the suspended or waiting Release. */
module ReleaseOutcomes {
  import opened Json
  import opened Digests
  import opened Inventory
  import opened Cluster
  import opened Prune
  import opened Status
  import opened Backoff
  import opened Reconcile
  import opened Ledger
  import opened ReleaseLoop
  import opened ReleaseRuns

  function Account(p: Params, spec: Spec): string {
    EffectiveServiceAccount(spec.serviceAccount, p.defaultServiceAccount)
  }

  /** There is something new to apply, it converts, and there is a client to apply it with. */
  predicate Applies(p: Params, spec: Spec, st: Status, e: Env) {
    && RenderedWell(e) && !NoOpNow(p, st, e) && Convertible(e.package.resources)
    && (Account(p, spec) == "" || e.impersonation == ImpersonationOk)
  }

  function StaleIn(st: Status, e: Env): seq<Entry>
    requires e.package.Package?
  {
    StaleSet(PreviousEntries(st), EntriesOf(e.package.resources))
  }

  predicate Sweeps(spec: Spec, st: Status, e: Env) {
    spec.prune && e.package.Package? && StaleIn(st, e) != []
  }

  function PruneErrors(spec: Spec, st: Status, c: State, e: Env): seq<Fault> {
    if Sweeps(spec, st, e)
    then Errors(Fates(Apply(c, Manifests(e.package.resources), EVERY), "", StaleIn(st, e), e.prune))
    else []
  }

  /** Why an attempt failed. */
  function FailureReason(p: Params, spec: Spec, e: Env): string {
    if !e.source.SourceReady? then SOURCE_NOT_READY
    else if !e.fetched then FETCH_FAILED
    else if e.navigation == PathMissing then PATH_NOT_FOUND
    else if e.navigation == FileMissing then RELEASE_FILE_NOT_FOUND
    else if e.package.OtherKind? || e.package == PackageFault(Unsupported) then UNSUPPORTED_KIND
    else if e.package == PackageFault(Unresolved) then RESOLUTION_FAILED
    else if !e.package.Package? || RenderDigest(e.package.resources).None? then RENDER_FAILED
    else if !Convertible(e.package.resources) then APPLY_FAILED
    else if Account(p, spec) != "" && e.impersonation != ImpersonationOk then IMPERSONATION_FAILED
    else if e.apply.ApplyFault? then APPLY_FAILED
    else PRUNE_FAILED
  }

  ghost predicate FailedFor(cs: Conditions, o: Outcome, reason: string) {
    && cs.ready == Some(Condition(False, reason))
    && (o == FailedStalled ==> cs.stalled == Some(Condition(True, reason)) && cs.reconciling == None)
    && (o == FailedTransient ==> cs.stalled == None && cs.reconciling == Some(Condition(True, PROGRESSING)))
  }

  // Phase by phase

  ghost predicate Fresh(st: Status) {
    st.conditions.reconciling == Some(Condition(True, PROGRESSING)) && st.conditions.stalled == None
  }

  lemma PrepareExactly(p: Params, spec: Spec, st: Status, c: State, e: Env)
    requires Fresh(st) && !RenderedWell(e)
    ensures Prepare(p, spec, st, c, e).Failure?
    ensures var a := Prepare(p, spec, st, c, e).attempt;
            && a.verdict.outcome ==
               (if e.source.SourceNotReady? || (e.source.SourceReady? && !e.fetched) then FailedTransient
                else FailedStalled)
            && FailedFor(a.status.conditions, a.verdict.outcome, FailureReason(p, spec, e))
            && a.verdict.phases == NO_PHASES
            && a.verdict.digests ==
               DigestSet(if e.source.SourceReady? then e.source.digest else NoDigest, NoDigest, NoDigest, NoDigest)
  {
    hide RenderDigest, RenderedDigests;
  }

  lemma PruneOutcome(spec: Spec, st: Status, c: State, e: Env, entries: seq<Entry>, d: DigestSet)
    requires Fresh(st)
    ensures var a, stale := PrunePhase(spec, st, c, e, entries, d), StaleSet(PreviousEntries(st), entries);
            var errs := if spec.prune && stale != [] then Errors(Fates(c, "", stale, e.prune)) else [];
            && a.verdict.outcome == (if errs != [] then FailedTransient
                                     else if spec.prune && stale != [] then AppliedAndPruned else Applied)
            && (errs != [] ==> FailedFor(a.status.conditions, FailedTransient, PRUNE_FAILED))
            && a.verdict.phases == Phases(false, false, true, false, true, errs != [])
            && a.verdict.digests == d
  {
    hide Pruned, Fates, Errors, StaleSet, ComputeBackoff;
  }

  lemma ApplyOutcome(p: Params, spec: Spec, st: Status, c: State, e: Env, rs: seq<Resource>, d: DigestSet)
    requires Fresh(st)
    ensures var a, stale := ApplyPhase(p, spec, st, c, e, rs, d), StaleSet(PreviousEntries(st), EntriesOf(rs));
            var errs := if spec.prune && stale != []
                        then Errors(Fates(Apply(c, Manifests(rs), EVERY), "", stale, e.prune)) else [];
            && a.verdict.digests == d
            && if !Convertible(rs) || (Account(p, spec) != "" && e.impersonation != ImpersonationOk) then
                 && a.verdict.outcome == FailedStalled && a.verdict.phases == NO_PHASES
                 && FailedFor(a.status.conditions, FailedStalled,
                              if !Convertible(rs) then APPLY_FAILED else IMPERSONATION_FAILED)
               else if e.apply.ApplyFault? then
                 && a.verdict.outcome == FailedTransient
                 && a.verdict.phases == Phases(false, false, true, true, false, false)
                 && FailedFor(a.status.conditions, FailedTransient, APPLY_FAILED)
               else
                 && a.verdict.outcome == (if errs != [] then FailedTransient
                                          else if spec.prune && stale != [] then AppliedAndPruned else Applied)
                 && (errs != [] ==> FailedFor(a.status.conditions, FailedTransient, PRUNE_FAILED))
                 && a.verdict.phases == Phases(false, false, true, false, true, errs != [])
  {
    hide PrunePhase, Apply, Fates, Errors, StaleSet, ComputeBackoff;
    PruneOutcome(spec, Unset(st, Drifted), Apply(c, Manifests(rs), EVERY), e, EntriesOf(rs), d);
  }

  // The attempt

  /** The outcome of an attempt, exactly: an unavailable source or artifact, a failed apply and a failed prune
      are retried, forbidden or not; whatever else fails stalls. */
  lemma OutcomeExactly(p: Params, spec: Spec, st: Status, c: State, e: Env)
    ensures var v, errs := RunPhases(p, spec, st, c, e).verdict, PruneErrors(spec, st, c, e);
            var o, applies := v.outcome, Applies(p, spec, st, e);
            && (o == NoOp <==> NoOpNow(p, st, e))
            && (o == FailedTransient <==>
                  || e.source.SourceNotReady? || (e.source.SourceReady? && !e.fetched)
                  || (applies && (e.apply.ApplyFault? || errs != [])))
            && (o == FailedStalled <==>
                  || e.source.SourceGone? || (e.source.SourceReady? && e.fetched && !RenderedWell(e))
                  || (RenderedWell(e) && !NoOpNow(p, st, e) && !applies))
            && (o == Applied <==> applies && e.apply.ApplyOk? && !Sweeps(spec, st, e))
            && (o == AppliedAndPruned <==> applies && e.apply.ApplyOk? && Sweeps(spec, st, e) && errs == [])
  {
    hide Prepare, ApplyPhase, RenderedDigests, IsNoOp, RenderDigest, Apply, Fates, Errors, StaleSet, FailureReason;
    Splits(p, spec, st, c, e);
  }

  /** Which phases ran and failed, exactly. */
  lemma PhasesExactly(p: Params, spec: Spec, st: Status, c: State, e: Env)
    ensures var applies := Applies(p, spec, st, e);
            RunPhases(p, spec, st, c, e).verdict.phases ==
            Phases(false, false, applies, applies && e.apply.ApplyFault?, applies && e.apply.ApplyOk?,
                   applies && e.apply.ApplyOk? && PruneErrors(spec, st, c, e) != [])
  {
    hide Prepare, ApplyPhase, RenderedDigests, IsNoOp, RenderDigest, Apply, Fates, Errors, StaleSet, FailureReason;
    Splits(p, spec, st, c, e);
  }

  /** The digests of an attempt, failed or not: the artifact's as soon as it is known, the config digest of no
      input, render and inventory digests of what was rendered. */
  lemma DigestsExactly(p: Params, spec: Spec, st: Status, c: State, e: Env)
    ensures var d := RunPhases(p, spec, st, c, e).verdict.digests;
            && d.source == (if e.source.SourceReady? then e.source.digest else NoDigest)
            && (if RenderedWell(e)
                then && d.config == ConfigDigest(p.num, Absent) && Some(d.render) == RenderDigest(e.package.resources)
                     && d.inventory == ComputeDigest(EntriesOf(e.package.resources))
                else d.config == NoDigest && d.render == NoDigest && d.inventory == NoDigest)
  {
    hide Prepare, ApplyPhase, IsNoOp, RenderDigest, ConfigDigest, ComputeDigest, Apply, Fates, Errors, StaleSet,
         FailureReason;
    Splits(p, spec, st, c, e);
  }

  /** The committed conditions of an attempt, exactly. */
  lemma ConditionsExactly(p: Params, spec: Spec, st: Status, c: State, e: Env)
    ensures var a := RunPhases(p, spec, st, c, e);
            var cs := Commit(a.status, a.verdict).conditions;
            if Failing(a.verdict.outcome) then FailedFor(cs, a.verdict.outcome, FailureReason(p, spec, e))
            else cs.ready == Some(Condition(True, SUCCEEDED)) && cs.stalled == None && cs.reconciling == None
  {
    hide Prepare, ApplyPhase, RenderedDigests, IsNoOp, RenderDigest, Apply, Fates, Errors, StaleSet, Commit;
    Splits(p, spec, st, c, e);
    AttemptKeeps(p, spec, st, c, e);
    var a := RunPhases(p, spec, st, c, e);
    CommitConditions(a.status, a.verdict);
    CommitKeepsConditions(a.status, a.verdict);
  }

  lemma CommitKeepsConditions(st: Status, v: Verdict)
    ensures v.outcome != NoOp ==> Commit(st, v).conditions == st.conditions
  {
    hide Recorded, Record, ComputeDigest;
    RecordedConditions(st, v);
  }

  /** An attempt fails before the apply, is a no-op, or is the apply phase. */
  lemma Splits(p: Params, spec: Spec, st: Status, c: State, e: Env)
    ensures var st1, a := MarkReconciling(st, PROGRESSING), RunPhases(p, spec, st, c, e);
            Fresh(st1) && PreviousEntries(st1) == PreviousEntries(st) &&
            if !RenderedWell(e) then
              && a.verdict.outcome ==
                 (if e.source.SourceNotReady? || (e.source.SourceReady? && !e.fetched) then FailedTransient
                  else FailedStalled)
              && FailedFor(a.status.conditions, a.verdict.outcome, FailureReason(p, spec, e))
              && a.verdict.phases == NO_PHASES
              && a.verdict.digests ==
                 DigestSet(if e.source.SourceReady? then e.source.digest else NoDigest, NoDigest, NoDigest, NoDigest)
            else
              var d := RenderedDigests(p, e.source.digest, e.package.resources);
              if NoOpNow(p, st, e)
              then a.verdict.outcome == NoOp && a.verdict.phases == NO_PHASES && a.verdict.digests == d
              else a == ApplyPhase(p, spec, st1, c, e, e.package.resources, d)
    ensures RenderedWell(e) ==>
              var rs, d := e.package.resources, RenderedDigests(p, e.source.digest, e.package.resources);
              var b := ApplyPhase(p, spec, MarkReconciling(st, PROGRESSING), c, e, rs, d);
              var errs := PruneErrors(spec, st, c, e);
              && b.verdict.digests == d
              && if !Convertible(rs) || (Account(p, spec) != "" && e.impersonation != ImpersonationOk) then
                   && b.verdict.outcome == FailedStalled && b.verdict.phases == NO_PHASES
                   && FailedFor(b.status.conditions, FailedStalled, FailureReason(p, spec, e))
                 else if e.apply.ApplyFault? then
                   && b.verdict.outcome == FailedTransient
                   && b.verdict.phases == Phases(false, false, true, true, false, false)
                   && FailedFor(b.status.conditions, FailedTransient, FailureReason(p, spec, e))
                 else
                   && b.verdict.outcome == (if errs != [] then FailedTransient
                                            else if Sweeps(spec, st, e) then AppliedAndPruned else Applied)
                   && (errs != [] ==> FailedFor(b.status.conditions, FailedTransient, FailureReason(p, spec, e)))
                   && b.verdict.phases == Phases(false, false, true, false, true, errs != [])
  {
    hide Prepare, ApplyPhase, RenderedDigests, IsNoOp, RenderDigest, Apply, Fates, Errors, StaleSet, FailedFor;
    var st1 := MarkReconciling(st, PROGRESSING);
    PrepareSettles(p, spec, st1, c, e);
    if RenderedWell(e) {
      ApplyOutcome(p, spec, st1, c, e, e.package.resources, RenderedDigests(p, e.source.digest, e.package.resources));
    } else {
      PrepareExactly(p, spec, st1, c, e);
    }
  }

  // Suspended or waiting

  /** Without the finalizer a reconcile only adds it. */
  lemma FinalizerFirst(p: Params, namespace: string, r: Release<Spec>, c: State, e: Env)
    requires !r.finalizer
    ensures var s := ReconcileStep(p, namespace, r, c, e);
            && s.release == r.(finalizer := e.finalized) && s.cluster == c && s.verdict == None && s.events == []
  {
  }

  /** A suspended Release reads Ready=False/Suspended, one whose dependencies are not met
      Ready=False/DependenciesNotReady with Reconciling and Stalled as they were; nothing else of it and
      nothing in the cluster changes. */
  lemma IdleExactly(p: Params, namespace: string, r: Release<Spec>, c: State, e: Env)
    requires r.finalizer && !r.deleting
    requires r.spec.suspend || exists i :: 0 <= i < |r.spec.dependsOn| && !Met(namespace, r.spec.dependsOn[i], e.lookup)
    ensures var s := ReconcileStep(p, namespace, r, c, e);
            var cs := r.status.conditions;
            && s.cluster == c && s.verdict == None && s.events == []
            && s.release == r.(status := r.status.(conditions := s.release.status.conditions))
            && s.release.status.conditions ==
               (if !e.patched then cs
                else if r.spec.suspend
                then cs.(ready := Some(Condition(False, SUSPENDED)), reconciling := None, stalled := None)
                else cs.(ready := Some(Condition(False, DEPENDENCIES_NOT_READY))))
  {
    hide RunPhases, Commit, CheckDependsOn;
    CheckExactly(namespace, r.spec.dependsOn, e.lookup);
  }
}
