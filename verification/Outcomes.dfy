/** What one reconcile of a ModuleRelease comes to, told from its inputs: outcome, Ready reason, phases,
    digests, the Drifted and ModuleResolved conditions, the history entry, and the suspended release. */
module Outcomes {
  import opened Json
  import opened Digests
  import opened Inventory
  import opened Cluster
  import opened Prune
  import opened Status
  import opened Backoff
  import opened Reconcile
  import opened Ledger
  import opened ModuleRelease
  import opened AttemptFacts

  function Account(p: Params, spec: Spec): string {
    EffectiveServiceAccount(spec.serviceAccount, p.defaultServiceAccount)
  }

  /** There is something new to apply and a client to apply it with. */
  predicate Applies(p: Params, spec: Spec, st: Status, e: Env) {
    RenderedWell(e) && !NoOpNow(p, spec, st, e) && (Account(p, spec) == "" || e.impersonation == ImpersonationOk)
  }

  predicate Sweeps(spec: Spec, st: Status, e: Env) {
    spec.prune && StaleIn(st, e) != []
  }

  /** The errors of the prune that follows a full apply. */
  function PruneErrors(spec: Spec, st: Status, c: State, e: Env): seq<Fault> {
    if Sweeps(spec, st, e)
    then Errors(Fates(Apply(c, ManifestsOf(e), EVERY), OwnerUUID(st, e), StaleIn(st, e), e.prune))
    else []
  }

  // The apply phase

  lemma ApplyOutcome(p: Params, spec: Spec, st: Status, c: State, e: Env, rs: seq<Resource>, d: DigestSet, ph: Phases)
    requires e.rendering == Rendered(rs)
    ensures var o, sa := ApplyPhase(p, spec, st, c, e, rs, d, ph).verdict.outcome, Account(p, spec);
            var stale := StaleSet(PreviousEntries(st), EntriesOf(rs));
            var errs := Errors(Fates(Apply(c, Manifests(rs), EVERY), st.releaseUUID, stale, e.prune));
            if sa != "" && e.impersonation != ImpersonationOk then o == FailedStalled
            else if e.apply.ApplyFault?
            then o == if sa != "" && e.apply.fault == Forbidden then FailedStalled else FailedTransient
            else if !spec.prune || stale == [] then o == Applied
            else o == if errs == [] then AppliedAndPruned
                      else if sa != "" && IsForbidden(errs) then FailedStalled else FailedTransient
  {
    hide Apply, Pruned, Fates, Errors, StaleSet, IsForbidden, ComputeBackoff, Set;
  }

  lemma ApplyReason(p: Params, spec: Spec, st: Status, c: State, e: Env, rs: seq<Resource>, d: DigestSet, ph: Phases)
    requires e.rendering == Rendered(rs) && st.conditions.reconciling == Some(Condition(True, PROGRESSING))
    ensures var a, sa := ApplyPhase(p, spec, st, c, e, rs, d, ph), Account(p, spec);
            var stale := StaleSet(PreviousEntries(st), EntriesOf(rs));
            var errs := Errors(Fates(Apply(c, Manifests(rs), EVERY), st.releaseUUID, stale, e.prune));
            var reason :=
              if sa != "" && (e.impersonation != ImpersonationOk ||
                              (if e.apply.ApplyFault? then e.apply.fault == Forbidden
                               else spec.prune && stale != [] && IsForbidden(errs)))
              then IMPERSONATION_FAILED
              else if e.apply.ApplyFault? then APPLY_FAILED else PRUNE_FAILED;
            Failing(a.verdict.outcome) ==>
              && a.status.conditions.ready == Some(Condition(False, reason))
              && (a.verdict.outcome == FailedStalled ==> a.status.conditions.stalled == Some(Condition(True, reason)))
              && (a.verdict.outcome == FailedTransient ==>
                    a.status.conditions.reconciling == Some(Condition(True, PROGRESSING)))
  {
    hide Apply, Pruned, Fates, Errors, StaleSet, IsForbidden, ComputeBackoff;
  }

  lemma ApplyRan(p: Params, spec: Spec, st: Status, c: State, e: Env, rs: seq<Resource>, d: DigestSet, ph: Phases)
    requires e.rendering == Rendered(rs)
    requires !ph.applyRan && !ph.applyFailed && !ph.pruneRan && !ph.pruneFailed
    ensures var a, sa := ApplyPhase(p, spec, st, c, e, rs, d, ph), Account(p, spec);
            var stale := StaleSet(PreviousEntries(st), EntriesOf(rs));
            var errs := Errors(Fates(Apply(c, Manifests(rs), EVERY), st.releaseUUID, stale, e.prune));
            var reaches := sa == "" || e.impersonation == ImpersonationOk;
            && a.verdict.phases == Phases(ph.driftRan, ph.driftFailed, reaches, reaches && e.apply.ApplyFault?,
                                          reaches && e.apply.ApplyOk?,
                                          reaches && e.apply.ApplyOk? && spec.prune && stale != [] && errs != [])
            && a.verdict.digests == d
            && a.status.conditions.moduleResolved == st.conditions.moduleResolved
            && a.status.conditions.drifted ==
               (if reaches && e.apply.ApplyOk? then None else st.conditions.drifted)
  {
    hide Apply, Pruned, Fates, Errors, StaleSet, IsForbidden, ComputeBackoff;
  }

  // The attempt

  /** The outcome of an attempt, exactly: it stalls when the rendering fails, when impersonation fails, or when
      an apply or a prune under a ServiceAccount is forbidden; it is retried on any other failed apply or
      prune; and it succeeds otherwise, with a prune if there was anything to prune. */
  lemma OutcomeExactly(p: Params, spec: Spec, st: Status, c: State, e: Env)
    ensures var o, errs := RunPhases(p, spec, st, c, e).verdict.outcome, PruneErrors(spec, st, c, e);
            var applies, account := Applies(p, spec, st, e), Account(p, spec) != "";
            && (o == NoOp <==> NoOpNow(p, spec, st, e))
            && (o == FailedStalled <==>
                  || !RenderedWell(e)
                  || (!NoOpNow(p, spec, st, e) && account && e.impersonation != ImpersonationOk)
                  || (applies && account && e.apply.ApplyFault? && e.apply.fault == Forbidden)
                  || (applies && account && e.apply.ApplyOk? && IsForbidden(errs)))
            && (o == FailedTransient <==>
                  || (applies && e.apply.ApplyFault? && !(account && e.apply.fault == Forbidden))
                  || (applies && e.apply.ApplyOk? && errs != [] && !(account && IsForbidden(errs))))
            && (o == Applied <==> applies && e.apply.ApplyOk? && !Sweeps(spec, st, e))
            && (o == AppliedAndPruned <==> applies && e.apply.ApplyOk? && Sweeps(spec, st, e) && errs == [])
  {
    hide RunPhases, ApplyPhase, RenderedDigests, IsNoOp, RenderDigest, Apply, Fates, Errors, StaleSet, OwnerUUID,
         Entering, Classified;
    AttemptSplits(p, spec, st, c, e);
    if RenderedWell(e) {
      EnteringKeeps(st, e);
      ApplyOutcome(p, spec, Entering(st, e), c, e, e.rendering.resources,
                   RenderedDigests(p, spec, e.rendering.resources), EnteringPhases(e));
    }
  }

  /** Why an attempt failed. */
  function FailureReason(p: Params, spec: Spec, st: Status, c: State, e: Env): string {
    if e.rendering.RenderError? then (if e.rendering.resolution then RESOLUTION_FAILED else RENDER_FAILED)
    else if RenderDigest(e.rendering.resources).None? then RENDER_FAILED
    else if !Convertible(e.rendering.resources) then APPLY_FAILED
    else if Account(p, spec) != "" &&
            (e.impersonation != ImpersonationOk ||
             (if e.apply.ApplyFault? then e.apply.fault == Forbidden else IsForbidden(PruneErrors(spec, st, c, e))))
    then IMPERSONATION_FAILED
    else if e.apply.ApplyFault? then APPLY_FAILED
    else PRUNE_FAILED
  }

  /** The committed conditions of an attempt, exactly: a failure leaves Ready=False with its reason, a stall
      Stalled with the same reason, a retry Reconciling as it began, a success Ready=True and neither. */
  lemma ConditionsExactly(p: Params, spec: Spec, st: Status, c: State, e: Env)
    ensures var a := RunPhases(p, spec, st, c, e);
            var cs, reason := Commit(a.status, a.verdict).conditions, FailureReason(p, spec, st, c, e);
            match a.verdict.outcome
            case FailedStalled =>
              && cs.ready == Some(Condition(False, reason)) && cs.stalled == Some(Condition(True, reason))
              && cs.reconciling == None
            case FailedTransient =>
              && cs.ready == Some(Condition(False, reason)) && cs.stalled == None
              && cs.reconciling == Some(Condition(True, PROGRESSING))
            case _ =>
              cs.ready == Some(Condition(True, SUCCEEDED)) && cs.stalled == None && cs.reconciling == None
  {
    hide RunPhases, ApplyPhase, RenderedDigests, IsNoOp, RenderDigest, Apply, Fates, Errors, StaleSet, OwnerUUID,
         Entering, Classified, Commit, Recorded;
    AttemptSplits(p, spec, st, c, e);
    AttemptKeeps(p, spec, st, c, e);
    var a := RunPhases(p, spec, st, c, e);
    CommitConditions(a.status, a.verdict);
    CommitKeepsConditions(a.status, a.verdict);
    if RenderedWell(e) {
      EnteringKeeps(st, e);
      EnteringProgress(st, e);
      ApplyReason(p, spec, Entering(st, e), c, e, e.rendering.resources,
                  RenderedDigests(p, spec, e.rendering.resources), EnteringPhases(e));
    } else {
      EarlyReason(p, spec, st, c, e);
    }
  }

  lemma CommitKeepsConditions(st: Status, v: Verdict)
    ensures v.outcome != NoOp ==> Commit(st, v).conditions == st.conditions
    ensures Commit(st, v).conditions.drifted == st.conditions.drifted
    ensures Commit(st, v).conditions.moduleResolved == st.conditions.moduleResolved
  {
    hide Recorded, Record, ComputeDigest;
    RecordedConditions(st, v);
  }

  lemma EnteringProgress(st: Status, e: Env)
    ensures var s := Entering(st, e).conditions;
            && s.reconciling == Some(Condition(True, PROGRESSING))
            && s.moduleResolved == Some(Condition(True, "ModuleResolved"))
            && s.drifted == match e.drift
                            case DriftError => st.conditions.drifted
                            case DriftFound => Some(Condition(True, DRIFT_DETECTED))
                            case NoDrift => None
  {
    hide ExtractUUID;
  }

  lemma EarlyReason(p: Params, spec: Spec, st: Status, c: State, e: Env)
    requires !RenderedWell(e)
    ensures var a, reason := RunPhases(p, spec, st, c, e), FailureReason(p, spec, st, c, e);
            && a.status.conditions.ready == Some(Condition(False, reason))
            && a.status.conditions.stalled == Some(Condition(True, reason))
            && a.status.conditions.drifted == st.conditions.drifted
            && a.status.conditions.moduleResolved ==
               (if e.rendering.Rendered? then Some(Condition(True, "ModuleResolved")) else st.conditions.moduleResolved)
            && a.verdict.phases == NO_PHASES
  {
    hide ApplyPhase, Apply, RenderDigest, RenderedDigests, PlannedDigests, ExtractUUID, EntriesOf, IsNoOp, WithDrift;
  }

  /** Which phases ran and failed, exactly: the counters count these. */
  lemma PhasesExactly(p: Params, spec: Spec, st: Status, c: State, e: Env)
    ensures var ph, applies := RunPhases(p, spec, st, c, e).verdict.phases, Applies(p, spec, st, e);
            && ph.driftRan == RenderedWell(e) && ph.driftFailed == (RenderedWell(e) && e.drift == DriftError)
            && ph.applyRan == applies && ph.applyFailed == (applies && e.apply.ApplyFault?)
            && ph.pruneRan == (applies && e.apply.ApplyOk?)
            && ph.pruneFailed == (applies && e.apply.ApplyOk? && PruneErrors(spec, st, c, e) != [])
  {
    hide RunPhases, ApplyPhase, RenderedDigests, IsNoOp, RenderDigest, Apply, Fates, Errors, StaleSet, OwnerUUID,
         Entering, Classified;
    AttemptSplits(p, spec, st, c, e);
    if RenderedWell(e) {
      EnteringKeeps(st, e);
      ApplyRan(p, spec, Entering(st, e), c, e, e.rendering.resources,
               RenderedDigests(p, spec, e.rendering.resources), EnteringPhases(e));
    } else {
      EarlyReason(p, spec, st, c, e);
    }
  }

  /** The digests of an attempt, failed or not: source and config from the spec, render and inventory from
      what was rendered, if it could be digested. */
  lemma DigestsExactly(p: Params, spec: Spec, st: Status, c: State, e: Env)
    ensures var d := RunPhases(p, spec, st, c, e).verdict.digests;
            && d.source == ModuleSourceDigest(spec.path, spec.version) && d.config == ConfigDigest(p.num, spec.values)
            && (if e.rendering.Rendered? && RenderDigest(e.rendering.resources).Some?
                then && Some(d.render) == RenderDigest(e.rendering.resources)
                     && d.inventory == ComputeDigest(EntriesOf(e.rendering.resources))
                else d.render == NoDigest && d.inventory == NoDigest)
  {
    hide RunPhases, ApplyPhase, IsNoOp, RenderDigest, ModuleSourceDigest, ConfigDigest, ComputeDigest, Apply, Fates,
         Errors, StaleSet, OwnerUUID, Entering, Classified;
    AttemptSplits(p, spec, st, c, e);
    if RenderedWell(e) {
      ApplyRan(p, spec, Entering(st, e), c, e, e.rendering.resources,
               RenderedDigests(p, spec, e.rendering.resources), EnteringPhases(e));
    } else {
      EarlyDigests(p, spec, st, c, e);
    }
  }

  lemma EarlyDigests(p: Params, spec: Spec, st: Status, c: State, e: Env)
    requires !RenderedWell(e)
    ensures RunPhases(p, spec, st, c, e).verdict.digests ==
            if e.rendering.Rendered? && RenderDigest(e.rendering.resources).Some?
            then RenderedDigests(p, spec, e.rendering.resources) else PlannedDigests(p, spec)
  {
    hide ApplyPhase, Apply, RenderDigest, RenderedDigests, PlannedDigests, ExtractUUID, EntriesOf, IsNoOp, WithDrift;
  }

  /** The Drifted and ModuleResolved conditions, exactly: drift is set or cleared by every dry-run that
      works and cleared by every full apply; resolution is set by every rendering. */
  lemma DriftedExactly(p: Params, spec: Spec, st: Status, c: State, e: Env)
    ensures var a := RunPhases(p, spec, st, c, e);
            var cs := Commit(a.status, a.verdict).conditions;
            && cs.drifted == (if !RenderedWell(e) then st.conditions.drifted
                              else if e.drift == NoDrift || (Applies(p, spec, st, e) && e.apply.ApplyOk?) then None
                              else if e.drift == DriftFound then Some(Condition(True, DRIFT_DETECTED))
                              else st.conditions.drifted)
            && cs.moduleResolved == (if e.rendering.Rendered? then Some(Condition(True, "ModuleResolved"))
                                     else st.conditions.moduleResolved)
  {
    hide RunPhases, ApplyPhase, RenderedDigests, IsNoOp, RenderDigest, Apply, Fates, Errors, StaleSet, OwnerUUID,
         Entering, Classified, Commit;
    AttemptSplits(p, spec, st, c, e);
    var a := RunPhases(p, spec, st, c, e);
    CommitKeepsConditions(a.status, a.verdict);
    if RenderedWell(e) {
      EnteringProgress(st, e);
      ApplyRan(p, spec, Entering(st, e), c, e, e.rendering.resources,
               RenderedDigests(p, spec, e.rendering.resources), EnteringPhases(e));
    } else {
      EarlyReason(p, spec, st, c, e);
    }
  }

  /** The history entry of an attempt, exactly: a success records all four digests and the number of resources
      and no message; a failure its digests, no count, and a message. */
  lemma HistoryExactly(p: Params, spec: Spec, st: Status, c: State, e: Env)
    ensures var a := RunPhases(p, spec, st, c, e);
            var h := Commit(a.status, a.verdict).history;
            && (h == st.history || (h != [] && h[0].sequence == NextSequence(st.history)))
            && (h != st.history ==> |h| == (if |st.history| < 10 then |st.history| + 1 else 10))
            && (a.verdict.reconciled ==>
                  && h != [] && RenderedWell(e)
                  && h[0] == HistoryEntry(NextSequence(st.history), a.verdict.digests, |e.rendering.resources|, ""))
            && (Failing(a.verdict.outcome) && a.verdict.errMsg != "" ==>
                  h != [] && h[0].digests == a.verdict.digests && h[0].inventoryCount == 0 && h[0].message != "")
            && (a.verdict.outcome == NoOp ==> h == st.history)
  {
    hide RunPhases, ApplyPhase, IsNoOp, RenderDigest, ModuleSourceDigest, ConfigDigest, OwnerUUID, Triple, MaxSequence,
         ComputeDigest;
    AttemptKeeps(p, spec, st, c, e);
    var a := RunPhases(p, spec, st, c, e);
    if a.verdict.reconciled {
      DigestsExactly(p, spec, st, c, e);
    }
  }

  /** The ServiceAccount in the spec wins over the default. */
  lemma AccountExactly(p: Params, spec: Spec)
    ensures spec.serviceAccount != "" ==> Account(p, spec) == spec.serviceAccount
    ensures spec.serviceAccount == "" ==> Account(p, spec) == p.defaultServiceAccount
  {
  }

  // Suspension

  /** Without the finalizer a reconcile only adds it, even to a release that is suspended or being deleted. */
  lemma FinalizerFirst(p: Params, r: Release<Spec>, c: State, e: Env)
    requires !r.finalizer
    ensures var s := ReconcileStep(p, r, c, e);
            && s.release == r.(finalizer := e.finalized) && s.cluster == c && s.verdict == None && s.events == []
  {
  }

  /** A suspended release whose patch is stored reads Ready=False/Suspended and neither Reconciling nor
      Stalled; nothing else of it and nothing in the cluster changes. */
  lemma SuspendExactly(p: Params, r: Release<Spec>, c: State, e: Env)
    requires r.finalizer && !r.deleting && r.spec.suspend
    ensures var s := ReconcileStep(p, r, c, e);
            && s.cluster == c && s.verdict == None && s.events == []
            && (!e.patched ==> s.release == r)
            && (e.patched ==>
                  && s.release == r.(status := r.status.(conditions := s.release.status.conditions))
                  && s.release.status.conditions ==
                     r.status.conditions.(ready := Some(Condition(False, SUSPENDED)), reconciling := None,
                                          stalled := None))
  {
  }
}
