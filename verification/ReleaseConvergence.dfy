/** What a successful attempt of the Release loop makes of the cluster, and why failed attempts and
    waiting for dependencies do not matter. */
module ReleaseConvergence {
  import opened Digests
  import opened Inventory
  import opened Cluster
  import opened Prune
  import opened Status
  import opened Reconcile
  import opened Ledger
  import opened Sweep
  import opened ReleaseLoop
  import opened ReleaseRuns

  // How far an attempt takes the cluster

  lemma PruneMoves(spec: Spec, st: Status, c: State, e: Env, entries: seq<Entry>, d: DigestSet)
    ensures var a := PrunePhase(spec, st, c, e, entries, d);
            var stale := if spec.prune then StaleSet(PreviousEntries(st), entries) else [];
            && a.cluster == Pruned(c, "", stale, e.prune)
            && (a.verdict.reconciled <==> Errors(Fates(c, "", stale, e.prune)) == [])
  {
    hide StaleSet;
  }

  predicate CanApply(p: Params, spec: Spec, e: Env) {
    EffectiveServiceAccount(spec.serviceAccount, p.defaultServiceAccount) == "" || e.impersonation == ImpersonationOk
  }

  lemma ApplyMoves(p: Params, spec: Spec, st: Status, c: State, e: Env, rs: seq<Resource>, d: DigestSet)
    ensures var a := ApplyPhase(p, spec, st, c, e, rs, d);
            var applied, stale := Apply(c, Manifests(rs), EVERY), Sweepings(spec.prune, PreviousEntries(st), rs);
            if !Convertible(rs) || !CanApply(p, spec, e) then !a.verdict.reconciled && a.cluster == c
            else if e.apply.ApplyFault?
            then !a.verdict.reconciled && a.cluster == Apply(c, Manifests(rs), e.apply.done)
            else && a.cluster == Pruned(applied, "", stale, e.prune)
                 && (a.verdict.reconciled <==> Errors(Fates(applied, "", stale, e.prune)) == [])
  {
    hide PrunePhase, Apply, Pruned, Fates, Errors, StaleSet, RetryDelay;
    PruneMoves(spec, Unset(st, Drifted), Apply(c, Manifests(rs), EVERY), e, EntriesOf(rs), d);
  }

  /** A success is a full pass; anything else stops at the start, in the apply, or in the prune. */
  ghost predicate ClusterMoved(spec: Spec, st: Status, c: State, e: Env, a: Attempt) {
    if a.verdict.reconciled then
      RenderedWell(e) && Done(spec.prune, PreviousEntries(st), "", e.package.resources, e.prune, c, a.cluster)
    else
      || a.cluster == c
      || (RenderedWell(e) && e.apply.ApplyFault? &&
          a.cluster == Apply(c, Manifests(e.package.resources), e.apply.done))
      || (RenderedWell(e) && e.apply.ApplyOk? &&
          a.cluster == Pruned(Apply(c, Manifests(e.package.resources), EVERY), "",
                              Sweepings(spec.prune, PreviousEntries(st), e.package.resources), e.prune))
  }

  lemma AttemptMoves(p: Params, spec: Spec, st: Status, c: State, e: Env)
    ensures ClusterMoved(spec, st, c, e, RunPhases(p, spec, st, c, e))
  {
    hide Prepare, ApplyPhase, RenderedDigests, IsNoOp, RenderDigest, Apply, Pruned, Fates, Errors, StaleSet;
    var st1 := MarkReconciling(st, PROGRESSING);
    PrepareSettles(p, spec, st1, c, e);
    if RenderedWell(e) {
      ApplyMoves(p, spec, st1, c, e, e.package.resources, RenderedDigests(p, e.source.digest, e.package.resources));
    }
  }

  /** After a successful attempt of a Release: rendered objects are live with their last manifest; with
      pruning on, previous entries are rendered again, gone, or spared as Namespace, CRD or unmanaged;
      everything else is untouched. */
  lemma ApplyThenPruneFate(p: Params, spec: Spec, st: Status, c: State, e: Env)
    ensures var a := RunPhases(p, spec, st, c, e);
            a.verdict.reconciled ==>
              e.package.Package? && Swept(spec.prune, PreviousEntries(st), "", e.package.resources, c, a.cluster)
  {
    hide RunPhases, Done, Swept, RenderDigest;
    AttemptMoves(p, spec, st, c, e);
    var a := RunPhases(p, spec, st, c, e);
    if a.verdict.reconciled {
      DoneSettles(spec.prune, PreviousEntries(st), "", e.package.resources, e.prune, c, a.cluster);
    }
  }

  // Retries

  /** What the attempts of a run have in common: the artifact digest and what it renders to. */
  datatype Artifact = Artifact(digest: Digest, rs: seq<Resource>)

  predicate Renders(e: Env, x: Artifact) {
    RenderedWell(e) ==> e.source.digest == x.digest && e.package.resources == x.rs
  }

  /** A reconcile that waits for dependencies, fails at any point, or succeeds without its status being stored. */
  predicate Abortive(p: Params, namespace: string, r: Release<Spec>, c: State, e: Env, x: Artifact) {
    && Renders(e, x)
    && !(e.patched && Attempts(namespace, r, e) && RunPhases(p, r.spec, r.status, c, e).verdict.reconciled)
  }

  function Retried(p: Params, namespace: string, r: Release<Spec>, c: State, es: seq<Env>): (Release<Spec>, State) {
    if es == [] then (r, c)
    else
      var w := Retried(p, namespace, r, c, es[..|es| - 1]);
      var s := ReconcileStep(p, namespace, w.0, w.1, es[|es| - 1]);
      (s.release, s.cluster)
  }

  ghost predicate AllAbortive(p: Params, namespace: string, r: Release<Spec>, c: State, es: seq<Env>, x: Artifact) {
    es == [] || (
      var n := |es| - 1;
      var w := Retried(p, namespace, r, c, es[..n]);
      AllAbortive(p, namespace, r, c, es[..n], x) && Abortive(p, namespace, w.0, w.1, es[n], x))
  }

  ghost function DoomedFor(r: Release<Spec>, c: State, x: Artifact): set<Ident> {
    Doomed(r.spec.prune, PreviousEntries(r.status), "", x.rs, c)
  }

  predicate NoOpFor(p: Params, st: Status, x: Artifact) {
    IsNoOp(RenderedDigests(p, x.digest, x.rs), LastAppliedDigests(st))
  }

  /** What a run of abortive reconciles keeps of where it started. */
  ghost predicate OnTrack(p: Params, r0: Release<Spec>, c0: State, r: Release<Spec>, c: State, x: Artifact) {
    && r == r0.(status := r.status)
    && r.status.inventory == r0.status.inventory && r.status.lastApplied == r0.status.lastApplied
    && Midway(c0, c, Manifests(x.rs), DoomedFor(r0, c0, x))
    && (NoOpFor(p, r0.status, x) ==> c == c0)
  }

  lemma AttemptStaysMidway(p: Params, r0: Release<Spec>, c0: State, r: Release<Spec>, c: State, e: Env, x: Artifact)
    requires OnTrack(p, r0, c0, r, c, x) && Renders(e, x)
    ensures Midway(c0, RunPhases(p, r.spec, r.status, c, e).cluster, Manifests(x.rs), DoomedFor(r0, c0, x))
  {
    hide RunPhases, Apply, Pruned, Fates, Errors, StaleSet, RenderDigest, Midway, Deletable, RenderedDigests, IsNoOp;
    AttemptMoves(p, r.spec, r.status, c, e);
    var ms, doomed := Manifests(x.rs), DoomedFor(r0, c0, x);
    if RenderedWell(e) {
      MidwayApply(c0, c, ms, doomed, EVERY);
      if e.apply.ApplyFault? {
        MidwayApply(c0, c, ms, doomed, e.apply.done);
      }
      SweepingsNeverRendered(r0.spec.prune, PreviousEntries(r0.status), x.rs);
      MidwayPrune(c0, Apply(c, ms, EVERY), ms, "", Sweepings(r.spec.prune, PreviousEntries(r.status), x.rs), e.prune);
    }
  }

  /** An attempt on an artifact whose digests are already applied changes nothing in the cluster. */
  lemma NoOpKeepsCluster(p: Params, r: Release<Spec>, c: State, e: Env, x: Artifact)
    requires Renders(e, x) && NoOpFor(p, r.status, x)
    ensures RunPhases(p, r.spec, r.status, c, e).cluster == c
  {
    hide Prepare, ApplyPhase, RenderedDigests, IsNoOp, RenderDigest;
    PrepareSettles(p, r.spec, MarkReconciling(r.status, PROGRESSING), c, e);
  }

  lemma AbortiveStep(p: Params, namespace: string, r0: Release<Spec>, c0: State, r: Release<Spec>, c: State, e: Env,
                     x: Artifact)
    requires Running(r0) && OnTrack(p, r0, c0, r, c, x) && Abortive(p, namespace, r, c, e, x)
    ensures var s := ReconcileStep(p, namespace, r, c, e); OnTrack(p, r0, c0, s.release, s.cluster, x)
  {
    hide RunPhases, Commit, Midway, DoomedFor, RenderDigest, CheckDependsOn, RenderedDigests, IsNoOp, Triple;
    AttemptStaysMidway(p, r0, c0, r, c, e, x);
    AttemptKeeps(p, r.spec, r.status, c, e);
    if NoOpFor(p, r0.status, x) {
      NoOpKeepsCluster(p, r, c, e, x);
    }
    var a := RunPhases(p, r.spec, r.status, c, e);
    CommitFields(a.status, a.verdict);
  }

  lemma {:induction false} RetriesStayOnTrack(p: Params, namespace: string, r: Release<Spec>, c: State, es: seq<Env>,
                                              x: Artifact)
    requires Running(r) && AllAbortive(p, namespace, r, c, es, x)
    ensures var w := Retried(p, namespace, r, c, es); OnTrack(p, r, c, w.0, w.1, x)
  {
    hide ReconcileStep, DoomedFor, Midway, Abortive, NoOpFor;
    if es == [] {
      MidwayStart(c, Manifests(x.rs), DoomedFor(r, c, x));
    } else {
      var n := |es| - 1;
      RetriesStayOnTrack(p, namespace, r, c, es[..n], x);
      var w := Retried(p, namespace, r, c, es[..n]);
      AbortiveStep(p, namespace, r, c, w.0, w.1, es[n], x);
    }
  }

  /** Dependencies met and every call answered without a fault. */
  ghost predicate Clean(namespace: string, r: Release<Spec>, e: Env, x: Artifact) {
    && CheckDependsOn(namespace, r.spec.dependsOn, e.lookup) == Satisfied
    && RenderedWell(e) && e.source.digest == x.digest && e.package.resources == x.rs && Convertible(x.rs)
    && e.impersonation == ImpersonationOk && e.apply.ApplyOk? && FaultFree(e.prune) && e.patched
  }

  lemma CleanSucceeds(p: Params, namespace: string, r: Release<Spec>, st: Status, c: State, e: Env, x: Artifact)
    requires Clean(namespace, r, e, x) && !NoOpFor(p, st, x)
    ensures var a := RunPhases(p, r.spec, st, c, e);
            a.verdict.reconciled && Done(r.spec.prune, PreviousEntries(st), "", x.rs, e.prune, c, a.cluster)
  {
    hide Prepare, ApplyPhase, Apply, Pruned, Fates, Errors, StaleSet, RenderDigest, IsNoOp, RenderedDigests,
         CheckDependsOn;
    var st1 := MarkReconciling(st, PROGRESSING);
    PrepareSettles(p, r.spec, st1, c, e);
    ApplyMoves(p, r.spec, st1, c, e, x.rs, RenderedDigests(p, x.digest, x.rs));
    FaultFreePrune(Apply(c, Manifests(x.rs), EVERY), "", Sweepings(r.spec.prune, PreviousEntries(st), x.rs), e.prune);
  }

  /** Retry confluence for a Release: for a fixed spec and artifact, any number of reconciles that wait for
      dependencies, fail partway or lose their commit, followed by a clean one, end with the cluster,
      inventory (revision included) and last-applied digests of one clean reconcile. */
  lemma RetryConfluence(p: Params, namespace: string, r: Release<Spec>, c: State, es: seq<Env>, e: Env, e0: Env,
                        x: Artifact)
    requires Running(r) && AllAbortive(p, namespace, r, c, es, x)
    requires Clean(namespace, r, e, x) && Clean(namespace, r, e0, x)
    ensures var w := Retried(p, namespace, r, c, es);
            var s, s0 := ReconcileStep(p, namespace, w.0, w.1, e), ReconcileStep(p, namespace, r, c, e0);
            && s.cluster == s0.cluster
            && s.release.status.inventory == s0.release.status.inventory
            && s.release.status.lastApplied == s0.release.status.lastApplied
  {
    hide RunPhases, Commit, Apply, Pruned, Fates, Errors, StaleSet, RenderDigest, IsNoOp, RenderedDigests, Midway, Done,
         Deletable, AllAbortive, ClusterMoved, Triple, ComputeDigest, CheckDependsOn;
    var w := Retried(p, namespace, r, c, es);
    RetriesStayOnTrack(p, namespace, r, c, es, x);
    AttemptKeeps(p, r.spec, w.0.status, w.1, e);
    AttemptKeeps(p, r.spec, r.status, c, e0);
    var a, a0 := RunPhases(p, r.spec, w.0.status, w.1, e), RunPhases(p, r.spec, r.status, c, e0);
    CommitFields(a.status, a.verdict);
    CommitFields(a0.status, a0.verdict);
    if !NoOpFor(p, r.status, x) {
      CleanSucceeds(p, namespace, r, w.0.status, w.1, e, x);
      CleanSucceeds(p, namespace, r, r.status, c, e0, x);
      ClustersMeet(r.spec.prune, PreviousEntries(r.status), "", x.rs, c, w.1, e.prune, e0.prune, a.cluster, a0.cluster);
    }
  }
}
