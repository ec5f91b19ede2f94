/** The journal of a ModuleRelease's run: what its inventory covers, and how its life ends. */
module ModuleJournal {
  import opened Json
  import opened Digests
  import opened Inventory
  import opened Cluster
  import opened Prune
  import opened Status
  import opened Reconcile
  import opened Ledger
  import opened Sweep
  import opened Journal
  import opened ModuleRelease
  import opened AttemptFacts
  import opened LedgerRuns
  import DeletionRuns

  /** The reconcile gets as far as applying, as can be told before it does. */
  predicate ReachesApply(p: Params, r: Release<Spec>, e: Env) {
    && Attempting(r) && RenderedWell(e) && !NoOpNow(p, r.spec, r.status, e)
    && (EffectiveServiceAccount(r.spec.serviceAccount, p.defaultServiceAccount) == "" ||
        e.impersonation == ImpersonationOk)
  }

  /** The reconcile is a stored success. */
  predicate Succeeds(p: Params, w: World, e: Env) {
    && Attempting(w.release) && e.patched
    && RunPhases(p, w.release.spec, w.release.status, w.cluster, e).verdict.reconciled
  }

  function SnapOf(w: World): Snap {
    Snap(PreviousEntries(w.release.status), w.cluster)
  }

  function SettingsOf(p: Params, r: Release<Spec>): DeletionRuns.Settings {
    DeletionRuns.Settings(p, r.spec.prune, r.spec.serviceAccount, r.status.releaseUUID)
  }

  function CallOf(r: Release<Spec>, e: Env): DeletionRuns.Call {
    DeletionRuns.Call(r.annotations, DeletionEnvOf(e))
  }

  function PassOf(p: Params, w: World, h: Happening): Pass {
    match h
    case ClusterChanged(_) => Outside
    case Reconciles(e) =>
      var r := w.release;
      if r.finalizer && r.deleting then DeletionPass(SettingsOf(p, r), r.status, CallOf(r, e))
      else if !ReachesApply(p, r, e) then Idle
      else if e.apply.ApplyFault? then Halted(ManifestsOf(e), e.apply.done)
      else Full(e.rendering.resources, r.spec.prune, OwnerUUID(r.status, e), e.prune, Succeeds(p, w, e))
    case _ => Idle
  }

  function LineOf(p: Params, w: World, h: Happening): Line {
    Line(SnapOf(w), PassOf(p, w, h), SnapOf(Next(p, w, h)))
  }

  /** The journal of a run. */
  function Lines(p: Params, w: World, hs: seq<Happening>): seq<Line> {
    if hs == [] then []
    else
      var n := |hs| - 1;
      Lines(p, w, hs[..n]) + [LineOf(p, Run(p, w, hs[..n]), hs[n])]
  }

  // The journal is true

  /** What an attempt does to the ledger: a stored success records what it rendered, anything else nothing. */
  lemma AttemptRecords(p: Params, w: World, e: Env)
    requires Attempting(w.release)
    ensures var st, st' := w.release.status, Next(p, w, Reconciles(e)).release.status;
            if Succeeds(p, w, e) then RenderedWell(e) && PreviousEntries(st') == EntriesIn(e)
            else PreviousEntries(st') == PreviousEntries(st) && LastAppliedDigests(st') == LastAppliedDigests(st)
  {
    hide RunPhases, Commit, OwnerUUID, RenderDigest, RenderedDigests, Triple;
    var r := w.release;
    AttemptKeeps(p, r.spec, r.status, w.cluster, e);
    var a := RunPhases(p, r.spec, r.status, w.cluster, e);
    CommitFields(a.status, a.verdict);
  }

  /** How far an attempt takes the cluster, by what can be told before it. */
  lemma AttemptReaches(p: Params, r: Release<Spec>, c: State, e: Env)
    requires Attempting(r)
    ensures var a := RunPhases(p, r.spec, r.status, c, e);
            if !ReachesApply(p, r, e) then !a.verdict.reconciled && a.cluster == c
            else if e.apply.ApplyFault?
            then !a.verdict.reconciled && a.cluster == Apply(c, ManifestsOf(e), e.apply.done)
            else
              var applied, stale := Apply(c, ManifestsOf(e), EVERY),
                                    Sweepings(r.spec.prune, PreviousEntries(r.status), e.rendering.resources);
              && a.cluster == Pruned(applied, OwnerUUID(r.status, e), stale, e.prune)
              && (a.verdict.reconciled <==> Errors(Fates(applied, OwnerUUID(r.status, e), stale, e.prune)) == [])
  {
    hide RunPhases, ApplyPhase, RenderedWell, NoOpNow, RenderedDigests, OwnerUUID, Apply, Pruned, Fates, Errors,
         Entering, StaleSet, Triple;
    AttemptSplits(p, r.spec, r.status, c, e);
    WellMeansRendered(e);
    if RenderedWell(e) {
      EnteringKeeps(r.status, e);
      ApplyMoves(p, r.spec, Entering(r.status, e), c, e, e.rendering.resources,
                 RenderedDigests(p, r.spec, e.rendering.resources), EnteringPhases(e));
    }
  }

  lemma ReconcileMoves(p: Params, w: World, e: Env)
    ensures Moves(LineOf(p, w, Reconciles(e)))
  {
    hide RunPhases, Commit, ReachesApply, OwnerUUID, Apply, Pruned, Fates, Errors, Sweepings, HandleDeletion,
         DeletionPass;
    var r := w.release;
    if Attempting(r) {
      AttemptReaches(p, r, w.cluster, e);
      AttemptRecords(p, w, e);
      WellMeansRendered(e);
      NotReaching(p, r, e);
    } else {
      NotReaching(p, r, e);
      if r.finalizer && r.deleting {
        DeletionMoves(SettingsOf(p, r), r.status, w.cluster, CallOf(r, e));
      }
    }
  }

  lemma NotReaching(p: Params, r: Release<Spec>, e: Env)
    ensures ReachesApply(p, r, e) ==> Attempting(r) && RenderedWell(e)
  {
  }

  /** A stored success is a full pass that is stored. */
  lemma SuccessIsFull(p: Params, w: World, e: Env)
    requires Succeeds(p, w, e)
    ensures ReachesApply(p, w.release, e) && e.rendering.Rendered?
    ensures PassOf(p, w, Reconciles(e)) ==
            Full(e.rendering.resources, w.release.spec.prune, OwnerUUID(w.release.status, e), e.prune, true)
  {
    hide RunPhases, OwnerUUID, Apply, Pruned, Errors, Fates, RenderDigest, IsNoOp;
    AttemptReaches(p, w.release, w.cluster, e);
  }

  lemma {:induction false} LinesChain(p: Params, w: World, hs: seq<Happening>)
    ensures Chain(SnapOf(w), Lines(p, w, hs)) && Last(SnapOf(w), Lines(p, w, hs)) == SnapOf(Run(p, w, hs))
    ensures |Lines(p, w, hs)| == |hs|
    ensures forall i :: 0 <= i < |hs| ==> (Lines(p, w, hs)[i].pass.Outside? <==> hs[i].ClusterChanged?)
  {
    hide ReconcileStep, ReachesApply, DeletionPass, Succeeds, Moves;
    if hs != [] {
      var n := |hs| - 1;
      LinesChain(p, w, hs[..n]);
      var v, h, js := Run(p, w, hs[..n]), hs[n], Lines(p, w, hs);
      LineMoves(p, v, h);
      assert js[..n] == Lines(p, w, hs[..n]);
      assert PassOf(p, v, h).Outside? <==> h.ClusterChanged? by { OutsideExactly(p, v, h); }
    }
  }

  lemma OutsideExactly(p: Params, w: World, h: Happening)
    ensures PassOf(p, w, h).Outside? <==> h.ClusterChanged?
  {
    hide ReachesApply, Succeeds;
  }

  lemma LineMoves(p: Params, w: World, h: Happening)
    ensures Moves(LineOf(p, w, h))
  {
    hide ReconcileStep, ReachesApply, DeletionPass, Succeeds;
    if h.Reconciles? {
      ReconcileMoves(p, w, h.env);
    }
  }

  // What the inventory covers

  /** Inventory coverage: over every run in which nobody else changes the cluster, a live object the release
      ever applied is missing from the stored inventory exactly when it was dropped with pruning off,
      spared, orphaned or leaked, or applied since the last stored success and not recorded before. */
  lemma InventoryCoverage(p: Params, w: World, hs: seq<Happening>)
    requires forall i :: 0 <= i < |hs| ==> !hs[i].ClusterChanged?
    ensures CoveredExactly(SnapOf(Run(p, w, hs)), Traced(Lines(p, w, hs)))
  {
    hide CoveredExactly, Chain, Traced;
    LinesChain(p, w, hs);
    JournalCovers(SnapOf(w), Lines(p, w, hs));
  }

  /** Every rendering of the run has the same identities. */
  ghost predicate SteadyRun(hs: seq<Happening>, ids: set<Ident>) {
    forall i :: 0 <= i < |hs| && hs[i].Reconciles? && RenderedWell(hs[i].env) ==> Ids(EntriesIn(hs[i].env)) == ids
  }

  lemma PassIsSteady(p: Params, w: World, h: Happening, ids: set<Ident>)
    requires h.Reconciles? && RenderedWell(h.env) ==> Ids(EntriesIn(h.env)) == ids
    ensures Touched(PassOf(p, w, h)) <= ids && (PassOf(p, w, h).Full? ==> RenderedSet(PassOf(p, w, h).rs) == ids)
  {
    hide Succeeds, RenderDigest, IsNoOp, Ids, LastFor, OwnerUUID;
    if h.Reconciles? && RenderedWell(h.env) {
      forall i | 0 <= i < |ManifestsOf(h.env)| ensures IdOf(ManifestsOf(h.env)[i]) in ids {
        LastForMember(ManifestsOf(h.env), i);
        RenderedIds(h.env.rendering.resources, IdOf(ManifestsOf(h.env)[i]));
      }
    }
  }

  lemma {:induction false} LinesSteady(p: Params, w: World, hs: seq<Happening>, ids: set<Ident>)
    requires SteadyRun(hs, ids)
    ensures Steady(Lines(p, w, hs), ids)
  {
    hide PassOf, Touched, RenderedWell;
    if hs != [] {
      var n := |hs| - 1;
      LinesSteady(p, w, hs[..n], ids);
      PassIsSteady(p, Run(p, w, hs[..n]), hs[n], ids);
    }
  }

  /** As long as the rendered identities do not change, nothing leaks and nothing is dropped: what is not
      in the inventory was applied since the last stored success, or orphaned on request. */
  lemma SteadyRunsLeakNothing(p: Params, w: World, hs: seq<Happening>, ids: set<Ident>)
    requires SteadyRun(hs, ids) && Ids(PreviousEntries(w.release.status)) <= ids
    ensures var t := Traced(Lines(p, w, hs)); t.unpruned == {} && t.spared == {} && t.leaked == {} && t.pending <= ids
  {
    hide Chain, Traced, Steady, SteadyRun, Ids;
    LinesChain(p, w, hs);
    LinesSteady(p, w, hs, ids);
    SteadyJournals(SnapOf(w), Lines(p, w, hs), ids);
  }

  // The end of a life

  /** A reconcile of a release being deleted is a deletion attempt: its status, finalizer, cluster and events. */
  lemma DeletingExactly(p: Params, w: World, e: Env)
    requires w.release.finalizer && w.release.deleting
    ensures var r, s := w.release, ReconcileStep(p, w.release, w.cluster, e);
            var d := DeletionRuns.Attempt(SettingsOf(p, r), r.status, w.cluster, CallOf(r, e));
            && s.release == r.(status := d.status, finalizer := d.finalizer) && s.cluster == d.cluster
            && s.events == d.events && s.verdict == None
  {
    hide RunPhases, Commit, HandleDeletion;
  }

  /** Only a deletion attempt drops the finalizer. */
  lemma DropIsDeletion(p: Params, w: World, e: Env)
    ensures var r, w' := w.release, Next(p, w, Reconciles(e));
            r.finalizer && !w'.release.finalizer ==>
              var d := DeletionRuns.Attempt(SettingsOf(p, r), r.status, w.cluster, CallOf(r, e));
              !d.finalizer && w'.cluster == d.cluster
  {
    hide RunPhases, Commit, HandleDeletion;
  }

  /** A whole life without outside changes: when the finalizer goes with pruning on, every live object the
      release ever applied is pending, unpruned, spared, leaked or orphaned, or was recorded and is kept
      by the guard, or was recorded and left behind by an orphan exit. */
  lemma LifeEnds(p: Params, w: World, hs: seq<Happening>, e: Env, id: Ident)
    requires forall i :: 0 <= i < |hs| ==> !hs[i].ClusterChanged?
    ensures var v, v' := Run(p, w, hs), Next(p, Run(p, w, hs), Reconciles(e));
            var t, r := Traced(Lines(p, w, hs)), Run(p, w, hs).release;
            r.finalizer && !v'.release.finalizer && r.spec.prune && id in t.applied && id in v'.cluster ==>
              || id in t.pending + Exceptions(t)
              || (id in Ids(PreviousEntries(r.status)) && Guarded(v'.cluster, r.status.releaseUUID, id))
              || (id in Ids(PreviousEntries(r.status)) &&
                  DeletionRuns.Orphans(SettingsOf(p, r), r.status, CallOf(r, e)))
  {
    hide Chain, Traced, Exceptions, Ids, Guarded, Next, Run, DeletionRuns.Attempt, Accounted, Lines, PreviousEntries;
    LinesChain(p, w, hs);
    JournalAccounts(SnapOf(w), Lines(p, w, hs));
    var v := Run(p, w, hs);
    DropIsDeletion(p, v, e);
    if v.release.finalizer && !Next(p, v, Reconciles(e)).release.finalizer && v.release.spec.prune {
      DropAccounts(SettingsOf(p, v.release), v.release.status, v.cluster, CallOf(v.release, e),
                   Traced(Lines(p, w, hs)), id);
    }
  }

  function TurnOf(w: World, h: Happening): seq<DeletionRuns.Turn> {
    match h
    case Reconciles(e) => [DeletionRuns.Attempts(CallOf(w.release, e))]
    case SpecEdited(spec) => [DeletionRuns.Edited(spec.prune, spec.serviceAccount)]
    case ClusterChanged(c) => [DeletionRuns.ClusterChanged(c)]
    case _ => []
  }

  /** The turns a run of happenings is for a release being deleted. */
  function TurnsOf(p: Params, w: World, hs: seq<Happening>): seq<DeletionRuns.Turn> {
    if hs == [] then []
    else TurnsOf(p, w, hs[..|hs| - 1]) + TurnOf(Run(p, w, hs[..|hs| - 1]), hs[|hs| - 1])
  }

  /** The finalizer was there before every step. */
  predicate KeptUntilLast(p: Params, w: World, hs: seq<Happening>) {
    hs == [] || (KeptUntilLast(p, w, hs[..|hs| - 1]) && Run(p, w, hs[..|hs| - 1]).release.finalizer)
  }

  /** The deletion run of the turns is at `v`. */
  ghost predicate Tracks(p: Params, w: World, v: World, turns: seq<DeletionRuns.Turn>) {
    var s := SettingsOf(p, w.release);
    var d := DeletionRuns.Run(s, w.release.status, w.cluster, turns);
    && v.release.deleting && v.release.status.releaseUUID == w.release.status.releaseUUID
    && d.status == v.release.status && d.finalizer == v.release.finalizer && d.cluster == v.cluster
    && DeletionRuns.SettingsAfter(s, turns) == SettingsOf(p, v.release)
  }

  lemma StepTracks(p: Params, w: World, v: World, turns: seq<DeletionRuns.Turn>, h: Happening)
    requires Tracks(p, w, v, turns) && v.release.finalizer
    ensures Tracks(p, w, Next(p, v, h), turns + TurnOf(v, h))
  {
    hide HandleDeletion, RunPhases, Commit, DeletionRuns.Run, DeletionRuns.SettingsAfter;
    var s, r := SettingsOf(p, w.release), v.release;
    if TurnOf(v, h) == [] {
      assert turns + [] == turns;
    } else {
      var t := TurnOf(v, h)[0];
      assert TurnOf(v, h) == [t];
      DeletionRuns.RunAppend(s, w.release.status, w.cluster, turns, t);
      if h.Reconciles? {
        DeletionKeepsUUID(SettingsOf(p, r), r.status, v.cluster, CallOf(r, h.env));
      }
    }
  }

  /** A run of a release being deleted, up to the step that drops the finalizer, is a deletion run: the same
      status, finalizer, cluster and settings, so every law of deletion runs holds of it. */
  lemma {:induction false} DeletionIsARun(p: Params, w: World, hs: seq<Happening>)
    requires w.release.finalizer && w.release.deleting && KeptUntilLast(p, w, hs)
    ensures Tracks(p, w, Run(p, w, hs), TurnsOf(p, w, hs))
  {
    hide Tracks, Next, TurnOf;
    if hs == [] {
      assert Tracks(p, w, w, []) by { TracksStart(p, w); }
    } else {
      var n := |hs| - 1;
      DeletionIsARun(p, w, hs[..n]);
      StepTracks(p, w, Run(p, w, hs[..n]), TurnsOf(p, w, hs[..n]), hs[n]);
    }
  }

  lemma TracksStart(p: Params, w: World)
    requires w.release.finalizer && w.release.deleting
    ensures Tracks(p, w, w, [])
  {
  }

  lemma DeletionKeepsUUID(s: DeletionRuns.Settings, st: Status, c: State, call: DeletionRuns.Call)
    ensures DeletionRuns.Attempt(s, st, c, call).status.releaseUUID == st.releaseUUID
  {
    hide Pruned, Fates, Errors, IsForbidden;
  }
}
