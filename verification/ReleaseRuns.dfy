/** Whole runs of one Release: the same ledger, counters, conditions and no-op laws as for a
    ModuleRelease, and retry delays of its own. */
module ReleaseRuns {
  import opened Json
  import opened Digests
  import opened Inventory
  import opened Cluster
  import opened Prune
  import opened Status
  import opened Backoff
  import opened Reconcile
  import opened Ledger
  import opened ReleaseLoop

  // One attempt

  /** Finalizer added, not being deleted, not suspended. */
  predicate Running(r: Release<Spec>) {
    r.finalizer && !r.deleting && !r.spec.suspend
  }

  /** A reconcile of the release gets past the dependency check. */
  predicate Attempts(namespace: string, r: Release<Spec>, e: Env) {
    Running(r) && CheckDependsOn(namespace, r.spec.dependsOn, e.lookup) == Satisfied
  }

  /** The phases got as far as a render digest. */
  predicate RenderedWell(e: Env) {
    && e.source.SourceReady? && e.fetched && e.navigation == PathFound
    && e.package.Package? && RenderDigest(e.package.resources).Some?
  }

  predicate NoOpNow(p: Params, st: Status, e: Env) {
    RenderedWell(e) && IsNoOp(RenderedDigests(p, e.source.digest, e.package.resources), LastAppliedDigests(st))
  }

  /** Success flag, delays and messages follow from the outcome: stalls wait half an hour, failures
      of apply and prune back off, an unavailable source or artifact waits one interval. */
  ghost predicate VerdictShape(v: Verdict, spec: Spec, st: Status) {
    && Sound(v)
    && (v.outcome == FailedStalled ==> v.retryAfter == STALLED_RECHECK)
    && (v.outcome == FailedTransient ==>
          v.retryAfter == if v.phases.applyRan then ComputeBackoff(CountersOf(st).reconcile + 1)
                          else if spec.interval == 0 then 300 else spec.interval)
    && (Failing(v.outcome) <==> v.errMsg != "") && (!Failing(v.outcome) ==> v.retryAfter == 0)
  }

  ghost predicate Settled(a: Attempt, spec: Spec, st: Status) {
    && LedgerKept(a.status, st) && VerdictShape(a.verdict, spec, st)
    && a.verdict.outcome != NoOp && Triple(a.status.conditions, a.verdict.outcome)
  }

  lemma StallSettles(spec: Spec, st: Status, c: State)
    ensures forall reason, d, msg, ph :: msg != "" ==> Settled(Stall(st, reason, c, d, msg, ph), spec, st)
  {
    forall reason, d, msg, ph | msg != "" ensures Settled(Stall(st, reason, c, d, msg, ph), spec, st) {
      assert Stall(st, reason, c, d, msg, ph).verdict.outcome == FailedStalled;
    }
  }

  lemma WaitSettles(spec: Spec, st: Status, reason: string, c: State, d: DigestSet, ph: Phases)
    requires InProgress(st) && reason != ""
    ensures Settled(Wait(st, reason, c, d, if ph.applyRan then RetryDelay(st) else Interval(spec), ph), spec, st)
  {
    hide ComputeBackoff;
  }

  lemma PrepareSettles(p: Params, spec: Spec, st: Status, c: State, e: Env)
    requires InProgress(st)
    ensures match Prepare(p, spec, st, c, e)
            case Failure(a) => !RenderedWell(e) && Settled(a, spec, st) && !a.verdict.reconciled && a.cluster == c
            case Resources(rs, d) =>
              RenderedWell(e) && rs == e.package.resources && d == RenderedDigests(p, e.source.digest, rs)
  {
    hide RenderDigest, RenderedDigests, Settled;
    StallSettles(spec, st, c);
    WaitSettles(spec, st, SOURCE_NOT_READY, c, NO_DIGESTS, NO_PHASES);
    if e.source.SourceReady? {
      WaitSettles(spec, st, FETCH_FAILED, c, NO_DIGESTS.(source := e.source.digest), NO_PHASES);
    }
  }

  lemma ApplySettles(p: Params, spec: Spec, st: Status, c: State, e: Env, rs: seq<Resource>, d: DigestSet)
    requires InProgress(st)
    ensures var a := ApplyPhase(p, spec, st, c, e, rs, d);
            && Settled(a, spec, st)
            && (a.verdict.reconciled ==>
                  Convertible(rs) && a.verdict.digests == d && a.verdict.entries == EntriesOf(rs))
  {
    hide PrunePhase, Apply, Settled, RetryDelay;
    StallSettles(spec, st, c);
    if e.apply.ApplyFault? {
      WaitSettles(spec, st, APPLY_FAILED, Apply(c, Manifests(rs), e.apply.done), d,
                  NO_PHASES.(applyRan := true, applyFailed := true));
    }
    SettledUndrifted(PrunePhase(spec, Unset(st, Drifted), Apply(c, Manifests(rs), EVERY), e, EntriesOf(rs), d),
                     spec, st);
    PruneSettles(spec, Unset(st, Drifted), Apply(c, Manifests(rs), EVERY), e, EntriesOf(rs), d);
  }

  lemma SettledUndrifted(a: Attempt, spec: Spec, st: Status)
    ensures Settled(a, spec, Unset(st, Drifted)) ==> Settled(a, spec, st)
  {
    hide ComputeBackoff, Triple;
  }

  lemma PruneSettles(spec: Spec, st: Status, c: State, e: Env, entries: seq<Entry>, d: DigestSet)
    requires InProgress(st)
    ensures var a := PrunePhase(spec, st, c, e, entries, d);
            && Settled(a, spec, st)
            && (a.verdict.reconciled ==> a.verdict.digests == d && a.verdict.entries == entries)
  {
    hide Pruned, Fates, Errors, StaleSet, ComputeBackoff;
  }

  /** One attempt: the ledger is left to the commit, the verdict fits its outcome, a no-op is reached
      exactly through the digest comparison, and a success carries what was rendered. */
  lemma AttemptKeeps(p: Params, spec: Spec, st: Status, c: State, e: Env)
    ensures var a := RunPhases(p, spec, st, c, e);
            && LedgerKept(a.status, st) && VerdictShape(a.verdict, spec, st)
            && (a.verdict.outcome == NoOp <==> NoOpNow(p, st, e))
            && (a.verdict.outcome == NoOp ==> a.cluster == c)
            && (a.verdict.outcome != NoOp ==> Triple(a.status.conditions, a.verdict.outcome))
            && (a.verdict.reconciled ==>
                  && RenderedWell(e) && Convertible(e.package.resources)
                  && a.verdict.digests == RenderedDigests(p, e.source.digest, e.package.resources)
                  && a.verdict.entries == EntriesOf(e.package.resources))
  {
    hide Prepare, ApplyPhase, RenderedDigests, IsNoOp, RenderDigest, ComputeBackoff;
    var st1 := MarkReconciling(st, PROGRESSING);
    PrepareSettles(p, spec, st1, c, e);
    if RenderedWell(e) {
      var rs := e.package.resources;
      ApplySettles(p, spec, st1, c, e, rs, RenderedDigests(p, e.source.digest, rs));
    }
  }

  // Runs

  /** A reconcile with any API outcomes and any state of its dependencies, an edit, or a change to the cluster. */
  datatype Happening =
    | Reconciles(env: Env)
    | SpecEdited(spec: Spec)
    | Annotated(annotations: map<string, string>)
    | DeletionRequested
    | ClusterChanged(cluster: State)

  datatype World = World(namespace: string, release: Release<Spec>, cluster: State)

  function Next(p: Params, w: World, h: Happening): World {
    match h
    case Reconciles(e) =>
      var s := ReconcileStep(p, w.namespace, w.release, w.cluster, e);
      w.(release := s.release, cluster := s.cluster)
    case SpecEdited(spec) => w.(release := w.release.(spec := spec))
    case Annotated(a) => w.(release := w.release.(annotations := a))
    case DeletionRequested => w.(release := w.release.(deleting := true))
    case ClusterChanged(c) => w.(cluster := c)
  }

  function Run(p: Params, w: World, hs: seq<Happening>): World {
    if hs == [] then w else Next(p, Run(p, w, hs[..|hs| - 1]), hs[|hs| - 1])
  }

  function CommitOf(p: Params, w: World, h: Happening): seq<(Verdict, Env)> {
    if h.Reconciles? && h.env.patched then
      match ReconcileStep(p, w.namespace, w.release, w.cluster, h.env).verdict
      case Some(v) => [(v, h.env)]
      case None => []
    else []
  }

  /** The stored commits of a run, oldest first. */
  function Commits(p: Params, w: World, hs: seq<Happening>): seq<(Verdict, Env)> {
    if hs == [] then []
    else
      var n := |hs| - 1;
      Commits(p, w, hs[..n]) + CommitOf(p, Run(p, w, hs[..n]), hs[n])
  }

  lemma NextKeepsLedger(p: Params, w: World, h: Happening, cs: seq<(Verdict, Env)>)
    requires LedgerHolds(w.release, cs) && CountersHold(w.release, cs)
    ensures var cs' := cs + CommitOf(p, w, h);
            LedgerHolds(Next(p, w, h).release, cs') && CountersHold(Next(p, w, h).release, cs')
  {
    hide RunPhases, Commit, HandleDeletion, LedgerHolds, CountersHold, CheckDependsOn;
    var r := w.release;
    if h.Reconciles? && Attempts(w.namespace, r, h.env) && h.env.patched {
      AttemptKeeps(p, r.spec, r.status, w.cluster, h.env);
      var a := RunPhases(p, r.spec, r.status, w.cluster, h.env);
      CommitKeepsLedger(r, cs, a.status, a.verdict, h.env);
      CommitKeepsCounters(r, cs, a.status, a.verdict, h.env);
    } else {
      if r.deleting && h.Reconciles? {
        DeletionUntouched(p, r.spec.prune, r.spec.serviceAccount, "", r, w.cluster, DeletionEnvOf(h.env));
      }
      assert cs + CommitOf(p, w, h) == cs;
      UntouchedKeeps(Next(p, w, h).release, r, cs);
    }
  }

  /** In every reachable status of a Release, inventory, digests, history and counters are what its
      stored commits make them; waiting for dependencies changes none of them. */
  lemma {:induction false} LedgerInvariant(p: Params, w: World, hs: seq<Happening>)
    requires w.release.status == EMPTY && !w.release.deleting
    ensures LedgerHolds(Run(p, w, hs).release, Commits(p, w, hs))
    ensures CountersHold(Run(p, w, hs).release, Commits(p, w, hs))
  {
    if hs != [] {
      var n := |hs| - 1;
      LedgerInvariant(p, w, hs[..n]);
      NextKeepsLedger(p, Run(p, w, hs[..n]), hs[n], Commits(p, w, hs[..n]));
    }
  }

  /** A failed apply or prune after any run is retried after min(5s * 2^(n-1), 5min), n being the streak
      of failed commits this failure makes, whichever phases those failed in; an unavailable source or
      artifact after one interval, a stall after 30 minutes. */
  lemma RetryFollowsStreak(p: Params, w: World, hs: seq<Happening>, e: Env)
    requires w.release.status == EMPTY && !w.release.deleting
    ensures var r := Run(p, w, hs);
            var a := RunPhases(p, r.release.spec, r.release.status, r.cluster, e);
            var v := a.verdict;
            && Commit(a.status, v).nextRetry == (if Failing(v.outcome) then Some(v.retryAfter) else None)
            && (v.outcome == FailedStalled ==> v.retryAfter == STALLED_RECHECK)
            && (v.outcome == FailedTransient && !v.phases.applyRan ==>
                  v.retryAfter == if r.release.spec.interval == 0 then 300 else r.release.spec.interval)
            && (v.outcome == FailedTransient && v.phases.applyRan ==>
                  exists n: nat :: 1 <= n && IsStreak(Flags(Commits(p, w, hs), ReconcileCounter) + [true], n) &&
                    v.retryAfter == ComputeBackoff(n))
  {
    hide RunPhases, Commit, ComputeBackoff, Next, CommitOf, LedgerKept, Triple, RenderedDigests, NoOpNow,
         RenderedWell, LedgerHolds;
    LedgerInvariant(p, w, hs);
    var r := Run(p, w, hs);
    var v := RunPhases(p, r.release.spec, r.release.status, r.cluster, e).verdict;
    var flags, n := Flags(Commits(p, w, hs), ReconcileCounter), CountersOf(r.release.status).reconcile;
    assert IsStreak(flags, CounterOf(CountersOf(r.release.status), ReconcileCounter));
    StreakStep(flags, n, [true]);
    AttemptKeeps(p, r.release.spec, r.release.status, r.cluster, e);
    BackoffLaw(1, n + 1);
    CommitSchedules(RunPhases(p, r.release.spec, r.release.status, r.cluster, e).status, v);
    if v.outcome == FailedTransient && v.phases.applyRan {
      assert 1 <= n + 1 && IsStreak(flags + [true], n + 1) && v.retryAfter == ComputeBackoff(n + 1);
    }
  }

  /** Each committed outcome fixes the Ready, Reconciling and Stalled conditions. */
  lemma OutcomeFixesConditions(p: Params, spec: Spec, st: Status, c: State, e: Env)
    ensures var a := RunPhases(p, spec, st, c, e);
            Triple(Commit(a.status, a.verdict).conditions, a.verdict.outcome)
  {
    hide RunPhases, Commit;
    AttemptKeeps(p, spec, st, c, e);
    var a := RunPhases(p, spec, st, c, e);
    CommitConditions(a.status, a.verdict);
  }

  lemma NextKeepsCoherent(p: Params, w: World, h: Happening)
    requires Coherent(w.release.status)
    ensures Coherent(Next(p, w, h).release.status)
  {
    hide RunPhases, Commit, HandleDeletion, CheckDependsOn;
    var r := w.release;
    if h.Reconciles? {
      var a := RunPhases(p, r.spec, r.status, w.cluster, h.env);
      assert Coherent(Commit(a.status, a.verdict)) by { OutcomeFixesConditions(p, r.spec, r.status, w.cluster, h.env); }
      DeletionKeepsCoherent(p, r.spec.prune, r.spec.serviceAccount, "", r.annotations, r.status, w.cluster,
                            DeletionEnvOf(h.env));
    }
  }

  /** In every reachable status Reconciling and Stalled are never both present, and Ready=True excludes both. */
  lemma {:induction false} ConditionsCoherent(p: Params, w: World, hs: seq<Happening>)
    requires Coherent(w.release.status)
    ensures Coherent(Run(p, w, hs).release.status)
  {
    hide Next, Coherent;
    if hs != [] {
      ConditionsCoherent(p, w, hs[..|hs| - 1]);
      NextKeepsCoherent(p, Run(p, w, hs[..|hs| - 1]), hs[|hs| - 1]);
    }
  }

  /** After a stored success from an artifact with a digest, the next attempt on the same artifact
      and rendering is a no-op that leaves the cluster alone; without an artifact digest it never is. */
  lemma NoOpFixpoint(p: Params, spec: Spec, st: Status, c: State, e: Env, spec': Spec, c': State, e': Env)
    requires RunPhases(p, spec, st, c, e).verdict.reconciled
    requires e'.source == e.source && e'.fetched && e'.navigation == PathFound && e'.package == e.package
    ensures var a := RunPhases(p, spec, st, c, e);
            var b := RunPhases(p, spec', Commit(a.status, a.verdict), c', e');
            && (b.verdict.outcome == NoOp <==> e.source.digest != NoDigest)
            && (b.verdict.outcome == NoOp ==> b.cluster == c')
  {
    hide RunPhases, Commit, RenderDigest, ComputeDigest, ConfigDigest, Triple;
    var a := RunPhases(p, spec, st, c, e);
    AttemptKeeps(p, spec, st, c, e);
    CommitFields(a.status, a.verdict);
    AttemptKeeps(p, spec', Commit(a.status, a.verdict), c', e');
    DigestsPresent(p, e.package.resources);
  }

  lemma DigestsPresent(p: Params, rs: seq<Resource>)
    requires RenderDigest(rs).Some?
    ensures ConfigDigest(p.num, Absent) != NoDigest && RenderDigest(rs).value != NoDigest
    ensures ComputeDigest(EntriesOf(rs)) != NoDigest
  {
  }

  /** After any run of a Release that is not being deleted, an attempt is a no-op exactly when its artifact has
      a digest, that of the last stored success, and renders what that success rendered as far as the
      digests can tell; whatever happened to the cluster is not looked at. */
  lemma NoOpDecided(p: Params, w: World, hs: seq<Happening>, e: Env)
    requires w.release.status == EMPTY && !w.release.deleting && !Run(p, w, hs).release.deleting
    ensures var r, last := Run(p, w, hs), LastSuccess(Commits(p, w, hs));
            var a := RunPhases(p, r.release.spec, r.release.status, r.cluster, e);
            && (a.verdict.outcome == NoOp <==>
                  && RenderedWell(e) && last.Some? && RenderedWell(last.value.1)
                  && e.source.digest == last.value.1.source.digest != NoDigest
                  && RenderDigest(e.package.resources) == RenderDigest(last.value.1.package.resources)
                  && multiset(EntriesOf(e.package.resources)) == multiset(EntriesOf(last.value.1.package.resources)))
            && (a.verdict.outcome == NoOp ==> a.cluster == r.cluster)
  {
    hide RunPhases, RenderDigest, ComputeDigest, ConfigDigest, Run, Commits, Triple, LastSuccess;
    var r, last := Run(p, w, hs), LastSuccess(Commits(p, w, hs));
    AttemptKeeps(p, r.release.spec, r.release.status, r.cluster, e);
    StoredLedger(p, w, hs);
    if RenderedWell(e) {
      DigestsPresent(p, e.package.resources);
      if last.Some? {
        InventoryDigestDecides(EntriesOf(e.package.resources), EntriesOf(last.value.1.package.resources));
      }
    }
  }

  /** In every reachable status the last-applied digests and the inventory are those of the artifact and of
      what the last stored success rendered; the config digest is that of no input. */
  lemma StoredLedger(p: Params, w: World, hs: seq<Happening>)
    requires w.release.status == EMPTY && !w.release.deleting
    ensures var r, last := Run(p, w, hs).release, LastSuccess(Commits(p, w, hs));
            if last.None? then r.status.lastApplied == NO_DIGESTS && r.status.inventory == None
            else
              var x := last.value.1;
              && RenderedWell(x) && r.status.lastApplied.source == x.source.digest
              && r.status.lastApplied.config == ConfigDigest(p.num, Absent)
              && Some(r.status.lastApplied.render) == RenderDigest(x.package.resources)
              && (!r.deleting ==> r.status.inventory.Some?)
              && (r.status.inventory.Some? ==>
                    r.status.inventory.value.digest == ComputeDigest(EntriesOf(x.package.resources)))
  {
    hide RenderDigest, ComputeDigest, ConfigDigest, Next, CommitOf;
    LedgerInvariant(p, w, hs);
    SuccessCounted(Commits(p, w, hs));
    LastSuccessFaithful(p, w, hs);
  }

  /** A stored success carries the digests and entries of what it rendered. */
  ghost predicate Faithful(p: Params, c: (Verdict, Env)) {
    c.0.reconciled ==>
      && RenderedWell(c.1) && Convertible(c.1.package.resources)
      && c.0.digests.source == c.1.source.digest && c.0.digests.config == ConfigDigest(p.num, Absent)
      && RenderDigest(c.1.package.resources) == Some(c.0.digests.render)
      && c.0.entries == EntriesOf(c.1.package.resources)
  }

  lemma {:induction false} LastSuccessFaithful(p: Params, w: World, hs: seq<Happening>)
    ensures var last := LastSuccess(Commits(p, w, hs));
            last.Some? ==> last.value.0.reconciled && Faithful(p, last.value)
  {
    hide RunPhases, Commit, HandleDeletion, RenderDigest, CheckDependsOn, ComputeDigest, ConfigDigest, Triple;
    if hs != [] {
      var n := |hs| - 1;
      LastSuccessFaithful(p, w, hs[..n]);
      var v, h, cs := Run(p, w, hs[..n]), hs[n], Commits(p, w, hs[..n]);
      if h.Reconciles? {
        AttemptKeeps(p, v.release.spec, v.release.status, v.cluster, h.env);
      }
      var new_ := CommitOf(p, v, h);
      if new_ == [] {
        assert cs + new_ == cs;
      } else {
        assert (cs + new_)[..|cs|] == cs;
      }
    }
  }

  /** A no-op means the same artifact digest and the same multisets of resources and entries as the last
      stored success. */
  lemma NoOpSound(p: Params, w: World, hs: seq<Happening>, e: Env)
    requires w.release.status == EMPTY && !w.release.deleting
    ensures var r, last := Run(p, w, hs), LastSuccess(Commits(p, w, hs));
            RunPhases(p, r.release.spec, r.release.status, r.cluster, e).verdict.outcome == NoOp ==>
              && RenderedWell(e) && last.Some? && RenderedWell(last.value.1)
              && last.value.1.source.digest == e.source.digest
              && multiset(last.value.0.entries) == multiset(EntriesOf(e.package.resources))
              && (Convertible(e.package.resources) ==>
                    multiset(last.value.1.package.resources) == multiset(e.package.resources))
  {
    hide RunPhases, RenderDigest, ComputeDigest, ConfigDigest, Next, CommitOf, Triple;
    var r := Run(p, w, hs);
    LedgerInvariant(p, w, hs);
    AttemptKeeps(p, r.release.spec, r.release.status, r.cluster, e);
    LastSuccessFaithful(p, w, hs);
    if NoOpNow(p, r.release.status, e) {
      var rs, last := e.package.resources, LastSuccess(Commits(p, w, hs)).value;
      InventoryDigestDecides(last.0.entries, EntriesOf(rs));
      if Convertible(rs) {
        RenderDigestDecides(last.1.package.resources, rs);
      }
    }
  }
}
