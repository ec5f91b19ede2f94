/** What a successful attempt of the ModuleRelease loop makes of the cluster, and why failed
    attempts do not matter. */
module Convergence {
  import opened Json
  import opened Digests
  import opened Inventory
  import opened Cluster
  import opened Prune
  import opened Status
  import opened Reconcile
  import opened Ledger
  import opened Sweep
  import opened ModuleRelease
  import opened AttemptFacts

  /** After a successful attempt: every rendered identity is live and carries the last manifest
      rendered for it; with pruning on, every entry of the previous inventory is rendered again, or
      gone, or untouched for a stated reason; every other object is untouched. Version changes and
      component renames do not matter, since only identities are compared. */
  lemma ApplyThenPruneFate(p: Params, spec: Spec, st: Status, c: State, e: Env)
    ensures var a := RunPhases(p, spec, st, c, e);
            a.verdict.reconciled ==>
              && e.rendering.Rendered?
              && Swept(spec.prune, PreviousEntries(st), OwnerUUID(st, e), e.rendering.resources, c, a.cluster)
  {
    hide RunPhases, Done, Swept, OwnerUUID, RenderedWell;
    AttemptMoves(p, spec, st, c, e);
    var a := RunPhases(p, spec, st, c, e);
    if a.verdict.reconciled {
      assert e.rendering.Rendered? by { WellMeansRendered(e); }
      DoneSettles(spec.prune, PreviousEntries(st), OwnerUUID(st, e), e.rendering.resources, e.prune, c, a.cluster);
    }
  }

  // Moved resources

  /** A resource that moves to another namespace leaves nothing behind: after a successful pruning attempt
      that renders nothing in the old namespace, a recorded object the release may delete is gone from it,
      and whatever is rendered is live where it is rendered. */
  lemma MoveLeavesNothing(p: Params, spec: Spec, st: Status, c: State, e: Env, m: Value)
    requires NewEntryFromResource(m) in PreviousEntries(st) && spec.prune
    requires forall x :: x in ManifestsOf(e) ==>
               StringAt(x, ["metadata", "namespace"]) != StringAt(m, ["metadata", "namespace"])
    ensures var a, old_ := RunPhases(p, spec, st, c, e), IdOf(m);
            && old_.namespace == StringAt(m, ["metadata", "namespace"])
            && old_.name == StringAt(m, ["metadata", "name"])
            && (a.verdict.reconciled && DeletableId(c, OwnerUUID(st, e), old_) ==> old_ !in a.cluster)
            && (a.verdict.reconciled ==> forall x :: x in ManifestsOf(e) ==>
                  exists id :: id in a.cluster && id.namespace == StringAt(x, ["metadata", "namespace"]) &&
                    id.name == StringAt(x, ["metadata", "name"]) && id == IdOf(x))
  {
    hide RunPhases, OwnerUUID, LastFor, NewEntryFromResource, RenderDigest, Owned;
    EntryReads(m);
    ApplyThenPruneFate(p, spec, st, c, e);
    var a, ms, id := RunPhases(p, spec, st, c, e), ManifestsOf(e), IdOf(m);
    if a.verdict.reconciled {
      forall i | 0 <= i < |ms| ensures IdOf(ms[i]) != id && IdOf(ms[i]) in a.cluster {
        EntryReads(ms[i]);
        assert ms[i] in ms;
      }
      LastForNone(ms, EVERY, id);
      forall x | x in ms ensures exists y :: y in a.cluster && y.namespace == StringAt(x, ["metadata", "namespace"]) &&
                                   y.name == StringAt(x, ["metadata", "name"]) && y == IdOf(x) {
        EntryReads(x);
        var i :| 0 <= i < |ms| && ms[i] == x;
        assert IdOf(ms[i]) in a.cluster;
      }
      if DeletableId(c, OwnerUUID(st, e), id) && id in a.cluster {
        assert Spared(a.cluster[id], OwnerUUID(st, e), NewEntryFromResource(m));
        SparedMeansKept(c[id], OwnerUUID(st, e), NewEntryFromResource(m));
      }
    }
  }

  lemma SparedMeansKept(o: Object, owner: string, x: Entry)
    ensures Spared(o, owner, x) ==> !Owned(o, owner) || !IsSafeToDelete(x)
  {
  }

  // Skipped kinds

  /** A Namespace or CRD of the previous inventory that is no longer rendered stays in the cluster as
      it is but leaves the inventory: after a stored success the inventory holds exactly what was
      rendered, so an entry stays exactly when it is rendered again. */
  lemma SkippedKindsLeaveInventory(p: Params, spec: Spec, st: Status, c: State, e: Env, x: Entry)
    requires x in PreviousEntries(st) && !IsSafeToDelete(x) && Id(x) in c
    ensures var a := RunPhases(p, spec, st, c, e);
            var st' := Commit(a.status, a.verdict);
            a.verdict.reconciled ==>
              && e.rendering.Rendered? && PreviousEntries(st') == EntriesOf(e.rendering.resources)
              && (x in PreviousEntries(st') <==> x in EntriesOf(e.rendering.resources))
              && (Id(x) in Ids(PreviousEntries(st')) <==> RendersId(ManifestsOf(e), Id(x)))
              && Id(x) in a.cluster
              && (!RendersId(ManifestsOf(e), Id(x)) ==> a.cluster[Id(x)] == c[Id(x)])
  {
    hide RunPhases, Commit, Done, OwnerUUID, RenderDigest, StaleSet, LastFor;
    AttemptMoves(p, spec, st, c, e);
    AttemptKeeps(p, spec, st, c, e);
    var a := RunPhases(p, spec, st, c, e);
    if a.verdict.reconciled {
      var rs := e.rendering.resources;
      CommitFields(a.status, a.verdict);
      FateOfId(spec.prune, PreviousEntries(st), OwnerUUID(st, e), rs, e.prune, c, a.cluster, Id(x));
      AfterOwned(Get(c, Id(x)), Manifests(rs), EVERY, Id(x));
      RenderedIds(rs, Id(x));
    }
  }

  // Retries

  /** An attempt of the run: it renders the same resources or fails to render, and its success,
      if any, is not stored. */
  ghost predicate Abortive(p: Params, r: Release<Spec>, c: State, e: Env, rs: seq<Resource>) {
    && (e.rendering == Rendered(rs) || e.rendering.RenderError?)
    && !(e.patched && RunPhases(p, r.spec, r.status, c, e).verdict.reconciled)
  }

  /** Release and cluster after a sequence of reconciles. */
  function Retried(p: Params, r: Release<Spec>, c: State, es: seq<Env>): (Release<Spec>, State) {
    if es == [] then (r, c)
    else
      var w := Retried(p, r, c, es[..|es| - 1]);
      var s := ReconcileStep(p, w.0, w.1, es[|es| - 1]);
      (s.release, s.cluster)
  }

  ghost predicate AllAbortive(p: Params, r: Release<Spec>, c: State, es: seq<Env>, rs: seq<Resource>) {
    es == [] || (
      var n := |es| - 1;
      var w := Retried(p, r, c, es[..n]);
      AllAbortive(p, r, c, es[..n], rs) && Abortive(p, w.0, w.1, es[n], rs))
  }

  function OwnerFor(st: Status, rs: seq<Resource>): string {
    WithUUID(st, Manifests(rs)).releaseUUID
  }

  ghost function DoomedFor(r: Release<Spec>, c: State, rs: seq<Resource>): set<Ident> {
    Doomed(r.spec.prune, PreviousEntries(r.status), OwnerFor(r.status, rs), rs, c)
  }

  /** What a run of failed attempts keeps of where it started. */
  ghost predicate OnTrack(r0: Release<Spec>, c0: State, r: Release<Spec>, c: State, rs: seq<Resource>) {
    && r == r0.(status := r.status)
    && r.status.inventory == r0.status.inventory && r.status.lastApplied == r0.status.lastApplied
    && OwnerFor(r.status, rs) == OwnerFor(r0.status, rs)
    && Midway(c0, c, Manifests(rs), DoomedFor(r0, c0, rs))
  }

  /** The cluster of any attempt stays on the way. */
  lemma AttemptStaysMidway(p: Params, r0: Release<Spec>, c0: State, r: Release<Spec>, c: State, e: Env,
                           rs: seq<Resource>)
    requires OnTrack(r0, c0, r, c, rs) && (e.rendering == Rendered(rs) || e.rendering.RenderError?)
    ensures Midway(c0, RunPhases(p, r.spec, r.status, c, e).cluster, Manifests(rs), DoomedFor(r0, c0, rs))
  {
    hide RunPhases, Apply, Pruned, Fates, Errors, StaleSet, RenderDigest, Midway, WithUUID, Deletable;
    AttemptMoves(p, r.spec, r.status, c, e);
    var ms, doomed := Manifests(rs), DoomedFor(r0, c0, rs);
    if e.rendering == Rendered(rs) {
      MidwayApply(c0, c, ms, doomed, EVERY);
      if e.apply.ApplyFault? {
        MidwayApply(c0, c, ms, doomed, e.apply.done);
      }
      if RenderedWell(e) {
        SweepingsNeverRendered(r0.spec.prune, PreviousEntries(r0.status), rs);
        MidwayPrune(c0, Apply(c, ms, EVERY), ms, OwnerFor(r0.status, rs), SweptIn(r.spec, r.status, e), e.prune);
      }
    }
  }

  lemma CommitKeepsOwner(st: Status, v: Verdict, rs: seq<Resource>)
    ensures Commit(st, v).releaseUUID == st.releaseUUID
    ensures !v.reconciled ==> Commit(st, v).inventory == st.inventory && Commit(st, v).lastApplied == st.lastApplied
  {
    hide Record, ComputeDigest;
  }

  lemma AbortiveStep(p: Params, r0: Release<Spec>, c0: State, r: Release<Spec>, c: State, e: Env, rs: seq<Resource>)
    requires Attempting(r0) && OnTrack(r0, c0, r, c, rs) && Abortive(p, r, c, e, rs)
    ensures var s := ReconcileStep(p, r, c, e); OnTrack(r0, c0, s.release, s.cluster, rs)
  {
    hide RunPhases, Commit, Midway, DoomedFor, RenderDigest, ExtractUUID;
    AttemptStaysMidway(p, r0, c0, r, c, e, rs);
    AttemptKeeps(p, r.spec, r.status, c, e);
    var a := RunPhases(p, r.spec, r.status, c, e);
    CommitKeepsOwner(a.status, a.verdict, rs);
  }

  lemma {:induction false} RetriesStayOnTrack(p: Params, r: Release<Spec>, c: State, es: seq<Env>, rs: seq<Resource>)
    requires Attempting(r) && AllAbortive(p, r, c, es, rs)
    ensures var w := Retried(p, r, c, es); OnTrack(r, c, w.0, w.1, rs)
  {
    hide ReconcileStep, DoomedFor, Midway, WithUUID, Abortive;
    if es == [] {
      MidwayStart(c, Manifests(rs), DoomedFor(r, c, rs));
    } else {
      var n := |es| - 1;
      RetriesStayOnTrack(p, r, c, es[..n], rs);
      var w := Retried(p, r, c, es[..n]);
      AbortiveStep(p, r, c, w.0, w.1, es[n], rs);
    }
  }

  /** When the digests already match, no attempt of the run touches the cluster. */
  lemma {:induction false} NoOpRetriesKeepCluster(p: Params, r: Release<Spec>, c: State, es: seq<Env>, e: Env,
                                                  rs: seq<Resource>)
    requires Attempting(r) && AllAbortive(p, r, c, es, rs)
    requires e.rendering == Rendered(rs) && NoOpNow(p, r.spec, r.status, e)
    ensures Retried(p, r, c, es).1 == c
  {
    if es != [] {
      hide RunPhases, Commit, RenderDigest, IsNoOp, RenderedDigests, WithUUID, OwnerUUID, Midway, Apply,
           Pruned, Fates, Errors, StaleSet;
      var n := |es| - 1;
      NoOpRetriesKeepCluster(p, r, c, es[..n], e, rs);
      RetriesStayOnTrack(p, r, c, es[..n], rs);
      var w := Retried(p, r, c, es[..n]);
      AttemptMoves(p, w.0.spec, w.0.status, w.1, es[n]);
      AttemptSplits(p, w.0.spec, w.0.status, w.1, es[n]);
    }
  }

  /** Every call of the attempt is answered without a fault. */
  ghost predicate Clean(e: Env, rs: seq<Resource>) {
    && e.rendering == Rendered(rs) && RenderedWell(e) && e.impersonation == ImpersonationOk && e.apply.ApplyOk?
    && FaultFree(e.prune) && e.patched
  }

  /** A clean attempt that is not a no-op succeeds, with a full pass over the cluster. */
  lemma CleanSucceeds(p: Params, spec: Spec, st: Status, c: State, e: Env, rs: seq<Resource>)
    requires Clean(e, rs) && !NoOpNow(p, spec, st, e)
    ensures var a := RunPhases(p, spec, st, c, e);
            a.verdict.reconciled && Done(spec.prune, PreviousEntries(st), OwnerFor(st, rs), rs, e.prune, c, a.cluster)
  {
    hide RunPhases, ApplyPhase, Apply, Pruned, Fates, Errors, StaleSet, RenderDigest, IsNoOp,
         RenderedDigests, ExtractUUID, Entering;
    AttemptSplits(p, spec, st, c, e);
    EnteringKeeps(st, e);
    ApplyMoves(p, spec, Entering(st, e), c, e, rs, RenderedDigests(p, spec, rs), EnteringPhases(e));
    FaultFreePrune(Apply(c, Manifests(rs), EVERY), OwnerFor(st, rs), Sweepings(spec.prune, PreviousEntries(st), rs),
                   e.prune);
  }

  /** Retry confluence: for a fixed spec and rendering, any number of attempts that fail partway
      or whose commit is lost, followed by one clean attempt, end with the same cluster, the same
      inventory (revision included) and the same last-applied digests as one clean attempt. */
  lemma RetryConfluence(p: Params, r: Release<Spec>, c: State, es: seq<Env>, e: Env, e0: Env, rs: seq<Resource>)
    requires Attempting(r) && AllAbortive(p, r, c, es, rs) && Clean(e, rs) && Clean(e0, rs)
    ensures var w := Retried(p, r, c, es);
            var s, s0 := ReconcileStep(p, w.0, w.1, e), ReconcileStep(p, r, c, e0);
            && s.cluster == s0.cluster
            && s.release.status.inventory == s0.release.status.inventory
            && s.release.status.lastApplied == s0.release.status.lastApplied
  {
    hide RunPhases, Commit, Apply, Pruned, Fates, Errors, StaleSet, RenderDigest, IsNoOp, RenderedDigests, WithUUID,
         OwnerUUID, Midway, Done, Deletable, AllAbortive, ClusterMoved, Triple, ComputeDigest;
    var w := Retried(p, r, c, es);
    RetriesStayOnTrack(p, r, c, es, rs);
    AttemptKeeps(p, r.spec, w.0.status, w.1, e);
    AttemptKeeps(p, r.spec, r.status, c, e0);
    var a, a0 := RunPhases(p, r.spec, w.0.status, w.1, e), RunPhases(p, r.spec, r.status, c, e0);
    CommitKeepsOwner(a.status, a.verdict, rs);
    CommitKeepsOwner(a0.status, a0.verdict, rs);
    if NoOpNow(p, r.spec, r.status, e0) {
      NoOpRetriesKeepCluster(p, r, c, es, e0, rs);
      AttemptMoves(p, r.spec, w.0.status, w.1, e);
      AttemptMoves(p, r.spec, r.status, c, e0);
    } else {
      CleanSucceeds(p, r.spec, w.0.status, w.1, e, rs);
      CleanSucceeds(p, r.spec, r.status, c, e0, rs);
      CommitFields(a.status, a.verdict);
      CommitFields(a0.status, a0.verdict);
      ClustersMeet(r.spec.prune, PreviousEntries(r.status), OwnerFor(r.status, rs), rs, c, w.1, e.prune, e0.prune,
                   a.cluster, a0.cluster);
    }
  }
}
