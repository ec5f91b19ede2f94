/** What one attempt of the ModuleRelease loop does, phase by phase: the facts every
    theorem about runs rests on. */
module AttemptFacts {
  import opened Json
  import opened Digests
  import opened Inventory
  import opened Cluster
  import opened Prune
  import opened Status
  import opened Backoff
  import opened Reconcile
  import opened Ledger
  import opened Sweep
  import opened ModuleRelease

  /** A verdict's flags and delay follow from its outcome. */
  ghost predicate VerdictShape(v: Verdict, st: Status) {
    && Sound(v)
    && (v.outcome == FailedStalled ==> v.retryAfter == STALLED_RECHECK)
    && (v.outcome == FailedTransient ==> v.retryAfter == ComputeBackoff(CountersOf(st).reconcile + 1) && v.errMsg != "")
    && (!Failing(v.outcome) ==> v.retryAfter == 0)
  }

  /** A reconcile of the release makes an attempt. */
  predicate Attempting(r: Release<Spec>) {
    r.finalizer && !r.deleting && !r.spec.suspend
  }

  /** Rendering got as far as the digests: every resource marshals to an object. */
  predicate RenderedWell(e: Env) {
    e.rendering.Rendered? && RenderDigest(e.rendering.resources).Some? && Convertible(e.rendering.resources)
  }

  lemma WellMeansRendered(e: Env)
    ensures RenderedWell(e) ==> e.rendering.Rendered?
  {
  }

  function ManifestsOf(e: Env): seq<Value> {
    if e.rendering.Rendered? then Manifests(e.rendering.resources) else []
  }

  function EntriesIn(e: Env): seq<Entry> {
    if e.rendering.Rendered? then EntriesOf(e.rendering.resources) else []
  }

  /** The UUID the attempt prunes under. */
  function OwnerUUID(st: Status, e: Env): string {
    if RenderedWell(e) then WithUUID(st, ManifestsOf(e)).releaseUUID else st.releaseUUID
  }

  function StaleIn(st: Status, e: Env): seq<Entry> {
    StaleSet(PreviousEntries(st), EntriesIn(e))
  }

  function SweptIn(spec: Spec, st: Status, e: Env): seq<Entry> {
    if spec.prune then StaleIn(st, e) else []
  }

  /** How far the attempt took the cluster. */
  ghost predicate ClusterMoved(spec: Spec, st: Status, c: State, e: Env, a: Attempt) {
    var ms, owner, stale := ManifestsOf(e), OwnerUUID(st, e), SweptIn(spec, st, e);
    if a.verdict.reconciled then
      && RenderedWell(e) && e.apply.ApplyOk?
      && Done(spec.prune, PreviousEntries(st), owner, e.rendering.resources, e.prune, c, a.cluster)
    else
      || a.cluster == c
      || (RenderedWell(e) && e.apply.ApplyFault? && a.cluster == Apply(c, ms, e.apply.done))
      || (RenderedWell(e) && e.apply.ApplyOk? && a.cluster == Pruned(Apply(c, ms, EVERY), owner, stale, e.prune))
  }

  /** What a phase hands to the commit. */
  ghost predicate Settled(a: Attempt, st: Status, d: DigestSet, entries: seq<Entry>) {
    && LedgerKept(a.status, st) && a.status.releaseUUID == st.releaseUUID
    && a.verdict.digests == d && (a.verdict.reconciled ==> a.verdict.entries == entries)
  }

  ghost predicate Classified(a: Attempt, st: Status) {
    VerdictShape(a.verdict, st) && a.verdict.outcome != NoOp && Triple(a.status.conditions, a.verdict.outcome)
  }

  // Phase by phase

  lemma PruneSettles(spec: Spec, st: Status, c: State, e: Env, entries: seq<Entry>, d: DigestSet, ph: Phases,
                     sa: string)
    ensures Settled(PrunePhase(spec, st, c, e, entries, d, ph, sa), st, d, entries)
  {
    hide Pruned, Fates, Errors, StaleSet, IsForbidden;
  }

  lemma PruneClassifies(spec: Spec, st: Status, c: State, e: Env, entries: seq<Entry>, d: DigestSet, ph: Phases,
                        sa: string)
    requires InProgress(st)
    ensures Classified(PrunePhase(spec, st, c, e, entries, d, ph, sa), st)
  {
    hide Pruned, Fates, Errors, StaleSet, IsForbidden, ComputeBackoff;
  }

  lemma PruneMoves(spec: Spec, st: Status, c: State, e: Env, entries: seq<Entry>, d: DigestSet, ph: Phases, sa: string)
    ensures var a := PrunePhase(spec, st, c, e, entries, d, ph, sa);
            var stale := if spec.prune then StaleSet(PreviousEntries(st), entries) else [];
            && a.cluster == Pruned(c, st.releaseUUID, stale, e.prune)
            && (a.verdict.reconciled <==> Errors(Fates(c, st.releaseUUID, stale, e.prune)) == [])
  {
    hide StaleSet, IsForbidden;
  }

  lemma ApplySettles(p: Params, spec: Spec, st: Status, c: State, e: Env, rs: seq<Resource>, d: DigestSet, ph: Phases)
    ensures Settled(ApplyPhase(p, spec, st, c, e, rs, d, ph), st, d, EntriesOf(rs))
  {
    hide PrunePhase, Apply, ComputeBackoff;
    PruneSettles(spec, Unset(st, Drifted), Apply(c, Manifests(rs), EVERY), e, EntriesOf(rs), d,
                 ph.(applyRan := true), EffectiveServiceAccount(spec.serviceAccount, p.defaultServiceAccount));
  }

  lemma StallClassified(st: Status)
    ensures forall reason, c', d, msg, ph :: Classified(Stall(st, reason, c', d, msg, ph), st)
  {
    forall reason, c', d, msg, ph ensures Classified(Stall(st, reason, c', d, msg, ph), st) {
      assert Stall(st, reason, c', d, msg, ph).verdict.outcome == FailedStalled;
    }
  }

  lemma FailedApplyClassified(st: Status, c: State, d: DigestSet, ph: Phases)
    requires InProgress(st)
    ensures Classified(Attempt(MarkNotReady(st, APPLY_FAILED), c,
                               Verdict(FailedTransient, d, false, [], "apply", RetryDelay(st), ph)), st)
  {
    hide ComputeBackoff;
  }

  lemma ClassifiedUndrifted(a: Attempt, st: Status)
    ensures Classified(a, Unset(st, Drifted)) ==> Classified(a, st)
  {
    hide ComputeBackoff, Triple;
  }

  lemma ApplyClassifies(p: Params, spec: Spec, st: Status, c: State, e: Env, rs: seq<Resource>, d: DigestSet,
                        ph: Phases)
    requires InProgress(st)
    ensures Classified(ApplyPhase(p, spec, st, c, e, rs, d, ph), st)
  {
    hide PrunePhase, Apply, Classified;
    StallClassified(st);
    if e.apply.ApplyFault? {
      FailedApplyClassified(st, Apply(c, Manifests(rs), e.apply.done), d, ph.(applyRan := true, applyFailed := true));
    }
    ClassifiedUndrifted(PrunePhase(spec, Unset(st, Drifted), Apply(c, Manifests(rs), EVERY), e, EntriesOf(rs), d,
                                   ph.(applyRan := true),
                                   EffectiveServiceAccount(spec.serviceAccount, p.defaultServiceAccount)), st);
    PruneClassifies(spec, Unset(st, Drifted), Apply(c, Manifests(rs), EVERY), e, EntriesOf(rs), d,
                    ph.(applyRan := true), EffectiveServiceAccount(spec.serviceAccount, p.defaultServiceAccount));
  }

  lemma ApplyMoves(p: Params, spec: Spec, st: Status, c: State, e: Env, rs: seq<Resource>, d: DigestSet, ph: Phases)
    ensures var a := ApplyPhase(p, spec, st, c, e, rs, d, ph);
            var applied := Apply(c, Manifests(rs), EVERY);
            var stale := Sweepings(spec.prune, PreviousEntries(st), rs);
            if EffectiveServiceAccount(spec.serviceAccount, p.defaultServiceAccount) != "" &&
               e.impersonation != ImpersonationOk
            then !a.verdict.reconciled && a.cluster == c
            else if e.apply.ApplyFault?
            then !a.verdict.reconciled && a.cluster == Apply(c, Manifests(rs), e.apply.done)
            else && a.cluster == Pruned(applied, st.releaseUUID, stale, e.prune)
                 && (a.verdict.reconciled <==> Errors(Fates(applied, st.releaseUUID, stale, e.prune)) == [])
  {
    hide PrunePhase, Apply, Pruned, Fates, Errors, StaleSet, IsForbidden, ComputeBackoff;
    PruneMoves(spec, Unset(st, Drifted), Apply(c, Manifests(rs), EVERY), e, EntriesOf(rs), d,
               ph.(applyRan := true), EffectiveServiceAccount(spec.serviceAccount, p.defaultServiceAccount));
  }

  /** The status and phases with which an attempt that rendered well enters the apply phase. */
  function Entering(st: Status, e: Env): Status {
    WithDrift(WithUUID(Set(MarkReconciling(st, PROGRESSING), ModuleResolved, True, "ModuleResolved"),
                       ManifestsOf(e)), e.drift)
  }

  function EnteringPhases(e: Env): Phases {
    NO_PHASES.(driftRan := true, driftFailed := e.drift == DriftError)
  }

  predicate NoOpNow(p: Params, spec: Spec, st: Status, e: Env) {
    RenderedWell(e) && IsNoOp(RenderedDigests(p, spec, e.rendering.resources), LastAppliedDigests(st))
  }

  /** An attempt fails before the apply phase, finds nothing to do, or enters the apply phase. */
  lemma AttemptSplits(p: Params, spec: Spec, st: Status, c: State, e: Env)
    ensures var a := RunPhases(p, spec, st, c, e);
            if !RenderedWell(e) then
              && LedgerKept(a.status, st) && a.status.releaseUUID == st.releaseUUID && Classified(a, st)
              && a.verdict.outcome == FailedStalled && a.cluster == c
            else
              var rs := e.rendering.resources;
              var d := RenderedDigests(p, spec, rs);
              if NoOpNow(p, spec, st, e)
              then a == Attempt(Entering(st, e), c, Verdict(NoOp, d, false, [], "", 0, EnteringPhases(e)))
              else a == ApplyPhase(p, spec, Entering(st, e), c, e, rs, d, EnteringPhases(e))
  {
    hide ApplyPhase, Apply, RenderDigest, ComputeDigest, ModuleSourceDigest, ConfigDigest, ExtractUUID, EntriesOf,
         Classified;
    if !RenderedWell(e) {
      EarlyStall(p, spec, st, c, e);
    }
  }

  /** A rendering that fails stalls the release before the apply phase. */
  lemma EarlyStall(p: Params, spec: Spec, st: Status, c: State, e: Env)
    requires !RenderedWell(e)
    ensures var a := RunPhases(p, spec, st, c, e);
            && LedgerKept(a.status, st) && a.status.releaseUUID == st.releaseUUID && Classified(a, st)
            && a.verdict.outcome == FailedStalled && a.cluster == c
  {
    hide ApplyPhase, Apply, RenderDigest, RenderedDigests, PlannedDigests, ExtractUUID, EntriesOf, IsNoOp, WithDrift;
  }

  lemma EnteringKeeps(st: Status, e: Env)
    requires RenderedWell(e)
    ensures var s := Entering(st, e);
            LedgerKept(s, st) && s.releaseUUID == OwnerUUID(st, e) && InProgress(s)
  {
    hide ExtractUUID;
  }

  /** One attempt: the ledger fields are untouched, the verdict fits its outcome, and a
      success carries the digests and entries of what was rendered. */
  lemma AttemptKeeps(p: Params, spec: Spec, st: Status, c: State, e: Env)
    ensures var a := RunPhases(p, spec, st, c, e);
            && LedgerKept(a.status, st) && VerdictShape(a.verdict, st)
            && a.status.releaseUUID == OwnerUUID(st, e)
            && (a.verdict.outcome == NoOp <==> NoOpNow(p, spec, st, e))
            && (a.verdict.outcome != NoOp ==> Triple(a.status.conditions, a.verdict.outcome))
            && (a.verdict.reconciled ==>
                  && RenderedWell(e) && a.verdict.digests == RenderedDigests(p, spec, e.rendering.resources)
                  && a.verdict.entries == EntriesIn(e))
  {
    hide RunPhases, ApplyPhase, IsNoOp, RenderedDigests, Entering;
    AttemptSplits(p, spec, st, c, e);
    if RenderedWell(e) {
      EnteringKeeps(st, e);
      var d, ph := RenderedDigests(p, spec, e.rendering.resources), EnteringPhases(e);
      ApplySettles(p, spec, Entering(st, e), c, e, e.rendering.resources, d, ph);
      ApplyClassifies(p, spec, Entering(st, e), c, e, e.rendering.resources, d, ph);
    }
  }

  /** How far an attempt takes the cluster. */
  lemma AttemptMoves(p: Params, spec: Spec, st: Status, c: State, e: Env)
    ensures ClusterMoved(spec, st, c, e, RunPhases(p, spec, st, c, e))
    ensures NoOpNow(p, spec, st, e) ==> RunPhases(p, spec, st, c, e).cluster == c
  {
    hide RunPhases, ApplyPhase, IsNoOp, RenderedDigests, Entering, Apply, Pruned, Fates, Errors, StaleSet;
    AttemptSplits(p, spec, st, c, e);
    if RenderedWell(e) {
      EnteringKeeps(st, e);
      ApplyMoves(p, spec, Entering(st, e), c, e, e.rendering.resources,
                 RenderedDigests(p, spec, e.rendering.resources), EnteringPhases(e));
    }
  }

  /** Successful or not, an attempt leaves the cluster at the start, somewhere in the apply, or
      somewhere in the prune after a full apply. */
  lemma AttemptStops(p: Params, spec: Spec, st: Status, c: State, e: Env)
    ensures var c', ms := RunPhases(p, spec, st, c, e).cluster, ManifestsOf(e);
            || c' == c
            || (e.apply.ApplyFault? && c' == Apply(c, ms, e.apply.done))
            || (RenderedWell(e) && c' == Pruned(Apply(c, ms, EVERY), OwnerUUID(st, e), SweptIn(spec, st, e), e.prune))
  {
    hide RunPhases, Apply, Pruned, Fates, Errors, StaleSet, OwnerUUID, RenderDigest;
    AttemptMoves(p, spec, st, c, e);
  }
}
