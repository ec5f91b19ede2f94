/** What a no-op of a ModuleRelease says about the cluster: exactly when it is as rendered, and what a
    reverted spec leaves behind. */
module NoOpRuns {
  import opened Digests
  import opened Inventory
  import opened Cluster
  import opened Prune
  import opened Reconcile
  import opened Ledger
  import opened Sweep
  import opened Journal
  import opened ModuleRelease
  import opened AttemptFacts
  import opened LedgerRuns
  import opened ModuleJournal

  /** The reconcile is a no-op. */
  predicate IsNoOpAt(p: Params, w: World, e: Env) {
    Attempting(w.release) && RunPhases(p, w.release.spec, w.release.status, w.cluster, e).verdict.outcome == NoOp
  }

  /** No reconcile of the run is a stored success. */
  predicate NoSuccess(p: Params, w: World, hs: seq<Happening>) {
    hs == [] || (
      var n := |hs| - 1;
      NoSuccess(p, w, hs[..n]) && (hs[n].Reconciles? ==> !Succeeds(p, Run(p, w, hs[..n]), hs[n].env)))
  }

  lemma DeletionSticks(p: Params, w: World, h: Happening)
    ensures w.release.deleting ==> Next(p, w, h).release.deleting
  {
    hide RunPhases, Commit, HandleDeletion;
  }

  lemma StepKeepsDigests(p: Params, w: World, h: Happening)
    requires !w.release.deleting && (h.Reconciles? ==> !Succeeds(p, w, h.env))
    ensures LastAppliedDigests(Next(p, w, h).release.status) == LastAppliedDigests(w.release.status)
  {
    hide RunPhases, Commit;
    if h.Reconciles? && Attempting(w.release) {
      AttemptRecords(p, w, h.env);
    }
  }

  lemma {:induction false} NoSuccessKeepsDigests(p: Params, w: World, hs: seq<Happening>)
    requires NoSuccess(p, w, hs) && !Run(p, w, hs).release.deleting
    ensures LastAppliedDigests(Run(p, w, hs).release.status) == LastAppliedDigests(w.release.status)
  {
    if hs != [] {
      hide Next, Succeeds, LastAppliedDigests;
      var n := |hs| - 1;
      DeletionSticks(p, Run(p, w, hs[..n]), hs[n]);
      NoSuccessKeepsDigests(p, w, hs[..n]);
      StepKeepsDigests(p, Run(p, w, hs[..n]), hs[n]);
    }
  }

  lemma SuccessSwept(p: Params, w: World, e: Env)
    requires Succeeds(p, w, e)
    ensures var r := w.release;
            && e.rendering.Rendered?
            && Swept(r.spec.prune, PreviousEntries(r.status), OwnerUUID(r.status, e), e.rendering.resources,
                     w.cluster, Next(p, w, Reconciles(e)).cluster)
  {
    hide RunPhases, Commit, Done, Swept, OwnerUUID, RenderDigest, Apply, Pruned;
    AttemptMoves(p, w.release.spec, w.release.status, w.cluster, e);
    DoneSettles(w.release.spec.prune, PreviousEntries(w.release.status), OwnerUUID(w.release.status, e),
                e.rendering.resources, e.prune, w.cluster, Next(p, w, Reconciles(e)).cluster);
  }

  /** A no-op after a stored success and any unstored attempts in between renders what the success rendered. */
  lemma NoOpRendersLast(p: Params, w: World, e0: Env, hs: seq<Happening>, e: Env)
    requires Succeeds(p, w, e0)
    requires var w1 := Next(p, w, Reconciles(e0)); NoSuccess(p, w1, hs) && IsNoOpAt(p, Run(p, w1, hs), e)
    ensures e0.rendering.Rendered? && e.rendering.Rendered?
    ensures multiset(e0.rendering.resources) == multiset(e.rendering.resources)
  {
    hide RunPhases, Commit, RenderDigest, ComputeDigest, OwnerUUID, Triple, ConfigDigest, ModuleSourceDigest, NoSuccess;
    var r, w1 := w.release, Next(p, w, Reconciles(e0));
    var v, a := Run(p, w1, hs), RunPhases(p, r.spec, r.status, w.cluster, e0);
    AttemptKeeps(p, r.spec, r.status, w.cluster, e0);
    AttemptKeeps(p, v.release.spec, v.release.status, v.cluster, e);
    CommittedDigests(a.status, a.verdict);
    NoSuccessKeepsDigests(p, w1, hs);
    RenderDigestDecides(e0.rendering.resources, e.rendering.resources);
  }

  /** The truth of a no-op, exactly: after a stored success and any run without another one (failed and
      unstored attempts of any spec, edits, changes to the cluster by anyone), a no-op leaves the cluster
      alone, and what it rendered is live with its manifests exactly when the journal since the success
      folds every rendered identity back to the manifest the success gave it. */
  lemma NoOpTruthExactly(p: Params, w: World, e0: Env, hs: seq<Happening>, e: Env)
    ensures var w1 := Next(p, w, Reconciles(e0));
            var v := Run(p, w1, hs);
            Succeeds(p, w, e0) && NoSuccess(p, w1, hs) && IsNoOpAt(p, v, e) ==>
              && Next(p, v, Reconciles(e)).cluster == v.cluster
              && multiset(ManifestsOf(e)) == multiset(ManifestsOf(e0))
              && (AsRendered(v.cluster, ManifestsOf(e), ManifestsOf(e0)) <==>
                  Restores(Lines(p, w1, hs), ManifestsOf(e), ManifestsOf(e0)))
  {
    hide RunPhases, Commit, RenderDigest, OwnerUUID, Triple, Swept, AsRendered, Restores, NoSuccess, Chain,
         ClusterMoved, Succeeds;
    var r, w1 := w.release, Next(p, w, Reconciles(e0));
    var v := Run(p, w1, hs);
    if Succeeds(p, w, e0) && NoSuccess(p, w1, hs) && IsNoOpAt(p, v, e) {
      NoOpRendersLast(p, w, e0, hs, e);
      ManifestsFollow(e0.rendering.resources, e.rendering.resources);
      AttemptKeeps(p, v.release.spec, v.release.status, v.cluster, e);
      AttemptMoves(p, v.release.spec, v.release.status, v.cluster, e);
      SuccessSwept(p, w, e0);
      LinesChain(p, w1, hs);
      TruthFolds(r.spec.prune, PreviousEntries(r.status), OwnerUUID(r.status, e0), e0.rendering.resources, w.cluster,
                 SnapOf(w1), Lines(p, w1, hs), e.rendering.resources);
    }
  }

  /** Nobody changes the cluster and no reconcile of the run reaches the apply. */
  ghost predicate Quiet(p: Params, w: World, hs: seq<Happening>) {
    hs == [] || (
      var n := |hs| - 1;
      && Quiet(p, w, hs[..n]) && !hs[n].ClusterChanged?
      && (hs[n].Reconciles? ==> !ReachesApply(p, Run(p, w, hs[..n]).release, hs[n].env)))
  }

  lemma QuietStep(p: Params, w: World, h: Happening)
    requires !w.release.deleting && !h.ClusterChanged? && (h.Reconciles? ==> !ReachesApply(p, w.release, h.env))
    ensures PassOf(p, w, h).Idle? && (h.Reconciles? ==> !Succeeds(p, w, h.env))
  {
    hide RunPhases, ReachesApply, Apply, Pruned, Errors, Fates;
    if h.Reconciles? && Attempting(w.release) {
      AttemptReaches(p, w.release, w.cluster, h.env);
    }
  }

  lemma {:induction false} QuietIsIdle(p: Params, w: World, hs: seq<Happening>)
    requires Quiet(p, w, hs) && !Run(p, w, hs).release.deleting
    ensures NoSuccess(p, w, hs)
    ensures forall i :: 0 <= i < |Lines(p, w, hs)| ==> Lines(p, w, hs)[i].pass.Idle?
  {
    if hs != [] {
      hide Next, ReachesApply, Succeeds, PassOf;
      var n := |hs| - 1;
      DeletionSticks(p, Run(p, w, hs[..n]), hs[n]);
      QuietIsIdle(p, w, hs[..n]);
      QuietStep(p, Run(p, w, hs[..n]), hs[n]);
    }
  }

  /** In particular: a no-op finds the cluster as rendered if since the last stored success nobody changed
      the cluster and no reconcile reached the apply. */
  lemma QuietNoOpIsTruthful(p: Params, w: World, e0: Env, hs: seq<Happening>, e: Env)
    requires Quiet(p, Next(p, w, Reconciles(e0)), hs)
    ensures var w1 := Next(p, w, Reconciles(e0));
            Succeeds(p, w, e0) && IsNoOpAt(p, Run(p, w1, hs), e) ==>
              AsRendered(Run(p, w1, hs).cluster, ManifestsOf(e), ManifestsOf(e0))
  {
    hide RunPhases, Next, AsRendered, NoSuccess, Quiet, Succeeds;
    var w1 := Next(p, w, Reconciles(e0));
    if Succeeds(p, w, e0) && IsNoOpAt(p, Run(p, w1, hs), e) {
      QuietIsIdle(p, w1, hs);
      NoOpTruthExactly(p, w, e0, hs, e);
      var ms, last := ManifestsOf(e), ManifestsOf(e0);
      forall i | 0 <= i < |ms|
        ensures var m := LastFor(last, EVERY, IdOf(ms[i])); Folded(Lines(p, w1, hs), IdOf(ms[i]), m) == m
      {
        IdleFolds(Lines(p, w1, hs), IdOf(ms[i]), LastFor(last, EVERY, IdOf(ms[i])));
      }
    }
  }

  // Reverting

  function Edited(w: World, spec: Spec): World {
    w.(release := w.release.(spec := spec))
  }

  /** The run: a stored success, an edit, an attempt, the edit undone. */
  function Reverted(p: Params, w: World, e: Env, spec: Spec, f: Env): World {
    Edited(Next(p, Edited(Next(p, w, Reconciles(e)), spec), Reconciles(f)), w.release.spec)
  }

  /** Reverting a spec after an attempt that reached the apply and was no stored success (its apply failed, its
      prune failed, or it succeeded and the status was lost) is a no-op that leaves the cluster where that
      attempt left it: each identity with what the attempt made of it. */
  lemma RevertIsBlind(p: Params, w: World, e: Env, spec: Spec, f: Env, e': Env)
    requires e'.rendering == e.rendering
    ensures var w2 := Edited(Next(p, w, Reconciles(e)), spec);
            var v := Reverted(p, w, e, spec, f);
            Succeeds(p, w, e) && !w2.release.spec.suspend && ReachesApply(p, w2.release, f) && !Succeeds(p, w2, f) ==>
              && IsNoOpAt(p, v, e')
              && Next(p, v, Reconciles(e')).cluster == v.cluster
              && v.cluster == (if f.apply.ApplyFault? then Apply(w2.cluster, ManifestsOf(f), f.apply.done)
                               else Pruned(Apply(w2.cluster, ManifestsOf(f), EVERY), OwnerUUID(w2.release.status, f),
                                           SweptIn(spec, w2.release.status, f), f.prune))
              && forall id :: ManifestAt(v.cluster, id) ==
                   Effect(LineOf(p, w2, Reconciles(f)), id, ManifestAt(w2.cluster, id))
  {
    hide RunPhases, Commit, RenderDigest, ComputeDigest, OwnerUUID, Triple, Apply, Pruned, RenderedDigests,
         ClusterMoved, IsNoOp, Errors, Fates, StaleSet, Effect, Moves, RenderedWell, PassOf, ManifestAt;
    var r, w1, w2 := w.release, Next(p, w, Reconciles(e)), Edited(Next(p, w, Reconciles(e)), spec);
    var v := Reverted(p, w, e, spec, f);
    if Succeeds(p, w, e) && ReachesApply(p, w2.release, f) && !Succeeds(p, w2, f) {
      var a := RunPhases(p, r.spec, r.status, w.cluster, e);
      AttemptKeeps(p, r.spec, r.status, w.cluster, e);
      WellMeansRendered(e);
      WellMeansRendered(f);
      SameRendering(p, r.spec, e, e');
      CommittedDigests(a.status, a.verdict);
      AttemptRecords(p, w2, f);
      AttemptReaches(p, w2.release, w2.cluster, f);
      assert NoOpNow(p, r.spec, v.release.status, e');
      AttemptKeeps(p, r.spec, v.release.status, v.cluster, e');
      AttemptMoves(p, r.spec, v.release.status, v.cluster, e');
      LineMoves(p, w2, Reconciles(f));
      forall id ensures ManifestAt(v.cluster, id) ==
                        Effect(LineOf(p, w2, Reconciles(f)), id, ManifestAt(w2.cluster, id)) {
        LineEffect(LineOf(p, w2, Reconciles(f)), id);
      }
    }
  }

  lemma SameRendering(p: Params, spec: Spec, e: Env, e': Env)
    requires RenderedWell(e) && e'.rendering == e.rendering
    ensures RenderedWell(e') && IsNoOp(RenderedDigests(p, spec, e.rendering.resources),
                                       RenderedDigests(p, spec, e.rendering.resources))
    ensures RenderedDigests(p, spec, e.rendering.resources).inventory == ComputeDigest(EntriesIn(e))
  {
    hide IsNoOp, RenderedDigests, RenderDigest, ComputeDigest;
    RenderedDigestsFull(p, spec, e.rendering.resources);
  }
}
