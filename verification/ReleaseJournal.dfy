/** The journal of a Release's run: what its inventory covers, how its life ends, and exactly when a no-op
    of it tells the truth about the cluster. */
module ReleaseJournal {
  import opened Json
  import opened Digests
  import opened Inventory
  import opened Cluster
  import opened Prune
  import opened Status
  import opened Reconcile
  import opened Ledger
  import opened Sweep
  import opened Journal
  import opened ReleaseLoop
  import opened ReleaseRuns
  import opened ReleaseConvergence
  import DeletionRuns

  /** The reconcile gets as far as applying, as can be told before it does. */
  predicate ReachesApply(p: Params, w: World, e: Env) {
    && Attempts(w.namespace, w.release, e) && RenderedWell(e) && !NoOpNow(p, w.release.status, e)
    && Convertible(e.package.resources) && CanApply(p, w.release.spec, e)
  }

  /** The reconcile is a stored success. */
  predicate Succeeds(p: Params, w: World, e: Env) {
    && Attempts(w.namespace, w.release, e) && e.patched
    && RunPhases(p, w.release.spec, w.release.status, w.cluster, e).verdict.reconciled
  }

  /** The reconcile is a no-op. */
  predicate IsNoOpAt(p: Params, w: World, e: Env) {
    && Attempts(w.namespace, w.release, e)
    && RunPhases(p, w.release.spec, w.release.status, w.cluster, e).verdict.outcome == NoOp
  }

  function SnapOf(w: World): Snap {
    Snap(PreviousEntries(w.release.status), w.cluster)
  }

  function SettingsOf(p: Params, r: Release<Spec>): DeletionRuns.Settings {
    DeletionRuns.Settings(p, r.spec.prune, r.spec.serviceAccount, "")
  }

  function CallOf(r: Release<Spec>, e: Env): DeletionRuns.Call {
    DeletionRuns.Call(r.annotations, DeletionEnvOf(e))
  }

  function PassOf(p: Params, w: World, h: Happening): Pass {
    match h
    case ClusterChanged(_) => Outside
    case Reconciles(e) =>
      var r := w.release;
      if r.finalizer && r.deleting then DeletionPass(SettingsOf(p, r), r.status, CallOf(r, e))
      else if !ReachesApply(p, w, e) then Idle
      else if e.apply.ApplyFault? then Halted(Manifests(e.package.resources), e.apply.done)
      else Full(e.package.resources, r.spec.prune, "", e.prune, Succeeds(p, w, e))
    case _ => Idle
  }

  function LineOf(p: Params, w: World, h: Happening): Line {
    Line(SnapOf(w), PassOf(p, w, h), SnapOf(Next(p, w, h)))
  }

  /** The journal of a run. */
  function Lines(p: Params, w: World, hs: seq<Happening>): seq<Line> {
    if hs == [] then []
    else
      var n := |hs| - 1;
      Lines(p, w, hs[..n]) + [LineOf(p, Run(p, w, hs[..n]), hs[n])]
  }

  // The journal is true

  lemma AttemptRecords(p: Params, w: World, e: Env)
    requires Attempts(w.namespace, w.release, e)
    ensures var st, st' := w.release.status, Next(p, w, Reconciles(e)).release.status;
            if Succeeds(p, w, e) then RenderedWell(e) && PreviousEntries(st') == EntriesOf(e.package.resources)
            else PreviousEntries(st') == PreviousEntries(st) && LastAppliedDigests(st') == LastAppliedDigests(st)
  {
    hide RunPhases, Commit, RenderDigest, RenderedDigests, Triple, CheckDependsOn;
    var r := w.release;
    AttemptKeeps(p, r.spec, r.status, w.cluster, e);
    var a := RunPhases(p, r.spec, r.status, w.cluster, e);
    CommitFields(a.status, a.verdict);
  }

  /** How far an attempt takes the cluster, by what can be told before it. */
  lemma AttemptReaches(p: Params, w: World, e: Env)
    requires Attempts(w.namespace, w.release, e)
    ensures var r, c := w.release, w.cluster;
            var a := RunPhases(p, r.spec, r.status, c, e);
            if !ReachesApply(p, w, e) then !a.verdict.reconciled && a.cluster == c
            else if e.apply.ApplyFault?
            then !a.verdict.reconciled && a.cluster == Apply(c, Manifests(e.package.resources), e.apply.done)
            else
              var applied, stale := Apply(c, Manifests(e.package.resources), EVERY),
                                    Sweepings(r.spec.prune, PreviousEntries(r.status), e.package.resources);
              && a.cluster == Pruned(applied, "", stale, e.prune)
              && (a.verdict.reconciled <==> Errors(Fates(applied, "", stale, e.prune)) == [])
  {
    hide Prepare, ApplyPhase, RenderedDigests, IsNoOp, RenderDigest, Apply, Pruned, Fates, Errors, Sweepings, CanApply,
         CheckDependsOn, Triple;
    var r, st1 := w.release, MarkReconciling(w.release.status, PROGRESSING);
    PrepareSettles(p, r.spec, st1, w.cluster, e);
    if RenderedWell(e) {
      ApplyMoves(p, r.spec, st1, w.cluster, e, e.package.resources,
                 RenderedDigests(p, e.source.digest, e.package.resources));
    }
  }

  lemma ReconcileMoves(p: Params, w: World, e: Env)
    ensures Moves(LineOf(p, w, Reconciles(e)))
  {
    hide RunPhases, Commit, Apply, Pruned, Fates, Errors, Sweepings, HandleDeletion, DeletionPass, CheckDependsOn,
         RenderedWell, NoOpNow, Convertible, CanApply;
    var r := w.release;
    if Attempts(w.namespace, r, e) {
      AttemptReaches(p, w, e);
      AttemptRecords(p, w, e);
    } else if r.finalizer && r.deleting {
      DeletionMoves(SettingsOf(p, r), r.status, w.cluster, CallOf(r, e));
    }
  }

  lemma LineMoves(p: Params, w: World, h: Happening)
    ensures Moves(LineOf(p, w, h))
    ensures PassOf(p, w, h).Outside? <==> h.ClusterChanged?
  {
    hide ReconcileStep, ReachesApply, Succeeds;
    if h.Reconciles? {
      ReconcileMoves(p, w, h.env);
    }
  }

  lemma {:induction false} LinesChain(p: Params, w: World, hs: seq<Happening>)
    ensures Chain(SnapOf(w), Lines(p, w, hs)) && Last(SnapOf(w), Lines(p, w, hs)) == SnapOf(Run(p, w, hs))
    ensures |Lines(p, w, hs)| == |hs|
    ensures forall i :: 0 <= i < |hs| ==> (Lines(p, w, hs)[i].pass.Outside? <==> hs[i].ClusterChanged?)
  {
    hide Next, PassOf, Moves;
    if hs != [] {
      var n := |hs| - 1;
      LinesChain(p, w, hs[..n]);
      LineMoves(p, Run(p, w, hs[..n]), hs[n]);
      assert Lines(p, w, hs)[..n] == Lines(p, w, hs[..n]);
    }
  }

  // What the inventory covers

  /** Inventory coverage for a Release: the same exact exceptions as for a ModuleRelease. */
  lemma InventoryCoverage(p: Params, w: World, hs: seq<Happening>)
    requires forall i :: 0 <= i < |hs| ==> !hs[i].ClusterChanged?
    ensures CoveredExactly(SnapOf(Run(p, w, hs)), Traced(Lines(p, w, hs)))
  {
    hide CoveredExactly, Chain, Traced;
    LinesChain(p, w, hs);
    JournalCovers(SnapOf(w), Lines(p, w, hs));
  }

  /** Every rendering of the run has the same identities. */
  ghost predicate SteadyRun(hs: seq<Happening>, ids: set<Ident>) {
    forall i :: 0 <= i < |hs| && hs[i].Reconciles? && RenderedWell(hs[i].env) ==>
      RenderedSet(hs[i].env.package.resources) == ids
  }

  lemma PassIsSteady(p: Params, w: World, h: Happening, ids: set<Ident>)
    requires h.Reconciles? && RenderedWell(h.env) ==> RenderedSet(h.env.package.resources) == ids
    ensures Touched(PassOf(p, w, h)) <= ids && (PassOf(p, w, h).Full? ==> RenderedSet(PassOf(p, w, h).rs) == ids)
  {
    hide Succeeds, RenderDigest, IsNoOp, Ids, LastFor, CheckDependsOn, RenderedDigests;
    if h.Reconciles? && RenderedWell(h.env) {
      var rs := h.env.package.resources;
      forall i | 0 <= i < |rs| ensures IdOf(Manifests(rs)[i]) in ids {
        LastForMember(Manifests(rs), i);
        RenderedIds(rs, IdOf(Manifests(rs)[i]));
      }
    }
  }

  lemma {:induction false} LinesSteady(p: Params, w: World, hs: seq<Happening>, ids: set<Ident>)
    requires SteadyRun(hs, ids)
    ensures Steady(Lines(p, w, hs), ids)
  {
    hide PassOf, Touched, RenderedWell;
    if hs != [] {
      var n := |hs| - 1;
      LinesSteady(p, w, hs[..n], ids);
      PassIsSteady(p, Run(p, w, hs[..n]), hs[n], ids);
    }
  }

  /** As long as the rendered identities do not change, nothing leaks and nothing is dropped. */
  lemma SteadyRunsLeakNothing(p: Params, w: World, hs: seq<Happening>, ids: set<Ident>)
    requires SteadyRun(hs, ids) && Ids(PreviousEntries(w.release.status)) <= ids
    ensures var t := Traced(Lines(p, w, hs)); t.unpruned == {} && t.spared == {} && t.leaked == {} && t.pending <= ids
  {
    hide Chain, Traced, Steady, SteadyRun, Ids;
    LinesChain(p, w, hs);
    LinesSteady(p, w, hs, ids);
    SteadyJournals(SnapOf(w), Lines(p, w, hs), ids);
  }

  /** A reconcile of a release being deleted is a deletion attempt: its status, finalizer, cluster and events. */
  lemma DeletingExactly(p: Params, w: World, e: Env)
    requires w.release.finalizer && w.release.deleting
    ensures var r, s := w.release, ReconcileStep(p, w.namespace, w.release, w.cluster, e);
            var d := DeletionRuns.Attempt(SettingsOf(p, r), r.status, w.cluster, CallOf(r, e));
            && s.release == r.(status := d.status, finalizer := d.finalizer) && s.cluster == d.cluster
            && s.events == d.events && s.verdict == None
  {
    hide RunPhases, Commit, HandleDeletion, CheckDependsOn;
  }

  /** Only a deletion attempt drops the finalizer. */
  lemma DropIsDeletion(p: Params, w: World, e: Env)
    ensures var r, w' := w.release, Next(p, w, Reconciles(e));
            r.finalizer && !w'.release.finalizer ==>
              var d := DeletionRuns.Attempt(SettingsOf(p, r), r.status, w.cluster, CallOf(r, e));
              !d.finalizer && w'.cluster == d.cluster
  {
    hide RunPhases, Commit, HandleDeletion, CheckDependsOn;
  }

  /** The end of a Release's life: what is live when the finalizer goes with pruning on. */
  lemma LifeEnds(p: Params, w: World, hs: seq<Happening>, e: Env, id: Ident)
    requires forall i :: 0 <= i < |hs| ==> !hs[i].ClusterChanged?
    ensures var v, v' := Run(p, w, hs), Next(p, Run(p, w, hs), Reconciles(e));
            var t, r := Traced(Lines(p, w, hs)), Run(p, w, hs).release;
            r.finalizer && !v'.release.finalizer && r.spec.prune && id in t.applied && id in v'.cluster ==>
              || id in t.pending + Exceptions(t)
              || (id in Ids(PreviousEntries(r.status)) && Guarded(v'.cluster, "", id))
              || (id in Ids(PreviousEntries(r.status)) &&
                  DeletionRuns.Orphans(SettingsOf(p, r), r.status, CallOf(r, e)))
  {
    hide Chain, Traced, Exceptions, Ids, Guarded, Next, Run, DeletionRuns.Attempt, Accounted, Lines, PreviousEntries;
    LinesChain(p, w, hs);
    JournalAccounts(SnapOf(w), Lines(p, w, hs));
    var v := Run(p, w, hs);
    DropIsDeletion(p, v, e);
    if v.release.finalizer && !Next(p, v, Reconciles(e)).release.finalizer && v.release.spec.prune {
      DropAccounts(SettingsOf(p, v.release), v.release.status, v.cluster, CallOf(v.release, e),
                   Traced(Lines(p, w, hs)), id);
    }
  }

  // The truth of a no-op

  /** No reconcile of the run is a stored success. */
  predicate NoSuccess(p: Params, w: World, hs: seq<Happening>) {
    hs == [] || (
      var n := |hs| - 1;
      NoSuccess(p, w, hs[..n]) && (hs[n].Reconciles? ==> !Succeeds(p, Run(p, w, hs[..n]), hs[n].env)))
  }

  lemma StepKeepsDigests(p: Params, w: World, h: Happening)
    ensures w.release.deleting ==> Next(p, w, h).release.deleting
    ensures !w.release.deleting && (h.Reconciles? ==> !Succeeds(p, w, h.env)) ==>
              LastAppliedDigests(Next(p, w, h).release.status) == LastAppliedDigests(w.release.status)
  {
    hide RunPhases, Commit, CheckDependsOn, HandleDeletion;
    if h.Reconciles? && Attempts(w.namespace, w.release, h.env) {
      AttemptRecords(p, w, h.env);
    }
  }

  lemma {:induction false} NoSuccessKeepsDigests(p: Params, w: World, hs: seq<Happening>)
    requires NoSuccess(p, w, hs) && !Run(p, w, hs).release.deleting
    ensures LastAppliedDigests(Run(p, w, hs).release.status) == LastAppliedDigests(w.release.status)
  {
    if hs != [] {
      hide Next, Succeeds, LastAppliedDigests;
      StepKeepsDigests(p, Run(p, w, hs[..|hs| - 1]), hs[|hs| - 1]);
      NoSuccessKeepsDigests(p, w, hs[..|hs| - 1]);
    }
  }

  lemma SuccessDigests(p: Params, w: World, e: Env)
    requires Succeeds(p, w, e)
    ensures RenderedWell(e) && Convertible(e.package.resources)
    ensures var d := LastAppliedDigests(Next(p, w, Reconciles(e)).release.status);
            d == RenderedDigests(p, e.source.digest, e.package.resources) &&
            RenderDigest(e.package.resources) == Some(d.render)
  {
    hide RunPhases, Commit, RenderDigest, ComputeDigest, ConfigDigest, Triple, CheckDependsOn;
    var r := w.release;
    AttemptKeeps(p, r.spec, r.status, w.cluster, e);
    var a := RunPhases(p, r.spec, r.status, w.cluster, e);
    CommitFields(a.status, a.verdict);
  }

  lemma NoOpRendersLast(p: Params, w: World, e0: Env, hs: seq<Happening>, e: Env)
    requires Succeeds(p, w, e0) && e.package.Package? && Convertible(e.package.resources)
    requires var w1 := Next(p, w, Reconciles(e0)); NoSuccess(p, w1, hs) && IsNoOpAt(p, Run(p, w1, hs), e)
    ensures RenderedWell(e0) && multiset(e0.package.resources) == multiset(e.package.resources)
  {
    hide RunPhases, Commit, RenderDigest, ComputeDigest, ConfigDigest, Triple, CheckDependsOn, NoSuccess, Succeeds,
         Next;
    var w1 := Next(p, w, Reconciles(e0));
    var v := Run(p, w1, hs);
    SuccessDigests(p, w, e0);
    NoSuccessKeepsDigests(p, w1, hs);
    AttemptKeeps(p, v.release.spec, v.release.status, v.cluster, e);
    RenderDigestDecides(e0.package.resources, e.package.resources);
  }

  /** The truth of a no-op of a Release, exactly: after a stored success and any run without another one, what
      the no-op rendered is live with its manifests exactly when the journal since the success folds every
      rendered identity back to the manifest the success gave it. */
  lemma NoOpTruthExactly(p: Params, w: World, e0: Env, hs: seq<Happening>, e: Env)
    requires e.package.Package? && Convertible(e.package.resources)
    ensures var w1 := Next(p, w, Reconciles(e0));
            var v := Run(p, w1, hs);
            Succeeds(p, w, e0) && NoSuccess(p, w1, hs) && IsNoOpAt(p, v, e) ==>
              && Next(p, v, Reconciles(e)).cluster == v.cluster && e0.package.Package?
              && var ms, last := Manifests(e.package.resources), Manifests(e0.package.resources);
                 && multiset(ms) == multiset(last)
                 && (AsRendered(v.cluster, ms, last) <==> Restores(Lines(p, w1, hs), ms, last))
  {
    hide RunPhases, Commit, RenderDigest, Triple, Swept, AsRendered, Restores, NoSuccess, Chain, CheckDependsOn,
         RenderedDigests, IsNoOp;
    var r, w1 := w.release, Next(p, w, Reconciles(e0));
    var v := Run(p, w1, hs);
    if Succeeds(p, w, e0) && NoSuccess(p, w1, hs) && IsNoOpAt(p, v, e) {
      NoOpRendersLast(p, w, e0, hs, e);
      ManifestsFollow(e0.package.resources, e.package.resources);
      AttemptKeeps(p, v.release.spec, v.release.status, v.cluster, e);
      ApplyThenPruneFate(p, r.spec, r.status, w.cluster, e0);
      LinesChain(p, w1, hs);
      TruthFolds(r.spec.prune, PreviousEntries(r.status), "", e0.package.resources, w.cluster, SnapOf(w1),
                 Lines(p, w1, hs), e.package.resources);
    }
  }
}
