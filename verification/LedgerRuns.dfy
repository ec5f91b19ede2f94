/** Whole runs of one ModuleRelease: what every reachable status satisfies. */
module LedgerRuns {
  import opened Json
  import opened Digests
  import opened Inventory
  import opened Cluster
  import opened Prune
  import opened Status
  import opened Backoff
  import opened Reconcile
  import opened Ledger
  import opened ModuleRelease
  import opened AttemptFacts

  /** A reconcile with any API outcomes, an edit by a user, or a change to the cluster by anyone. */
  datatype Happening =
    | Reconciles(env: Env)
    | SpecEdited(spec: Spec)
    | Annotated(annotations: map<string, string>)
    | DeletionRequested
    | ClusterChanged(cluster: State)

  datatype World = World(release: Release<Spec>, cluster: State)

  function Next(p: Params, w: World, h: Happening): World {
    match h
    case Reconciles(e) => var s := ReconcileStep(p, w.release, w.cluster, e); World(s.release, s.cluster)
    case SpecEdited(spec) => w.(release := w.release.(spec := spec))
    case Annotated(a) => w.(release := w.release.(annotations := a))
    case DeletionRequested => w.(release := w.release.(deleting := true))
    case ClusterChanged(c) => w.(cluster := c)
  }

  function Run(p: Params, w: World, hs: seq<Happening>): World {
    if hs == [] then w else Next(p, Run(p, w, hs[..|hs| - 1]), hs[|hs| - 1])
  }

  /** What an attempt ran under. */
  datatype Made = Made(spec: Spec, env: Env)

  /** The attempt a happening makes, if its status patch is stored. */
  function CommitOf(p: Params, w: World, h: Happening): seq<(Verdict, Made)> {
    if h.Reconciles? && h.env.patched then
      match ReconcileStep(p, w.release, w.cluster, h.env).verdict
      case Some(v) => [(v, Made(w.release.spec, h.env))]
      case None => []
    else []
  }

  /** The stored commits of a run, oldest first. */
  function Commits(p: Params, w: World, hs: seq<Happening>): seq<(Verdict, Made)> {
    if hs == [] then []
    else
      var n := |hs| - 1;
      Commits(p, w, hs[..n]) + CommitOf(p, Run(p, w, hs[..n]), hs[n])
  }

  /** A release just created. */
  predicate Fresh(w: World) {
    w.release.status == EMPTY && !w.release.deleting
  }

  /** A happening commits an attempt of the phases, or leaves the ledger alone. */
  lemma NextKeepsLedger(p: Params, w: World, h: Happening, cs: seq<(Verdict, Made)>)
    requires LedgerHolds(w.release, cs) && CountersHold(w.release, cs)
    ensures var cs' := cs + CommitOf(p, w, h);
            LedgerHolds(Next(p, w, h).release, cs') && CountersHold(Next(p, w, h).release, cs')
  {
    hide RunPhases, Commit, HandleDeletion, LedgerHolds, CountersHold;
    var r := w.release;
    if h.Reconciles? && r.finalizer && !r.deleting && !r.spec.suspend && h.env.patched {
      AttemptKeeps(p, r.spec, r.status, w.cluster, h.env);
      var a := RunPhases(p, r.spec, r.status, w.cluster, h.env);
      CommitKeepsLedger(r, cs, a.status, a.verdict, Made(r.spec, h.env));
      CommitKeepsCounters(r, cs, a.status, a.verdict, Made(r.spec, h.env));
    } else {
      if r.deleting && h.Reconciles? {
        DeletionUntouched(p, r.spec.prune, r.spec.serviceAccount, r.status.releaseUUID, r, w.cluster,
                          DeletionEnvOf(h.env));
      }
      assert cs + CommitOf(p, w, h) == cs;
      UntouchedKeeps(Next(p, w, h).release, r, cs);
    }
  }

  /** In every reachable status a stored inventory has the digest and count of its entries and
      a revision counting the stored successes; the last-applied digests and the entries are
      those of the last stored success; the history is the bounded view of the full log; every
      counter is the length of the current streak of failures of its phase, over the stored
      commits in which that phase ran. */
  lemma {:induction false} LedgerInvariant(p: Params, w: World, hs: seq<Happening>)
    requires Fresh(w)
    ensures LedgerHolds(Run(p, w, hs).release, Commits(p, w, hs))
    ensures CountersHold(Run(p, w, hs).release, Commits(p, w, hs))
  {
    if hs != [] {
      var n := |hs| - 1;
      LedgerInvariant(p, w, hs[..n]);
      NextKeepsLedger(p, Run(p, w, hs[..n]), hs[n], Commits(p, w, hs[..n]));
    }
  }

  /** After any run the stored history is the newest ten of everything recorded. */
  lemma HistoryRefinesLog(p: Params, w: World, hs: seq<Happening>)
    requires Fresh(w)
    ensures Newest(Run(p, w, hs).release.status.history, Log(Commits(p, w, hs)))
  {
    LedgerInvariant(p, w, hs);
    HistoryKeepsNewest(Log(Commits(p, w, hs)));
  }

  /** A transient failure after any run is retried after min(5s * 2^(n-1), 5min), n being the
      streak of failed commits this failure makes; every other failure after 30 minutes. */
  lemma RetryFollowsStreak(p: Params, w: World, hs: seq<Happening>, e: Env)
    requires Fresh(w)
    ensures var r := Run(p, w, hs);
            var a := RunPhases(p, r.release.spec, r.release.status, r.cluster, e);
            var v := a.verdict;
            && Commit(a.status, v).nextRetry == (if Failing(v.outcome) then Some(v.retryAfter) else None)
            && (v.outcome == FailedStalled ==> v.retryAfter == STALLED_RECHECK)
            && (v.outcome == FailedTransient ==>
                  exists n: nat :: 1 <= n && IsStreak(Flags(Commits(p, w, hs), ReconcileCounter) + [true], n) &&
                    v.retryAfter == ComputeBackoff(n))
  {
    hide RunPhases, Commit, ComputeBackoff, Next, CommitOf, LedgerKept, Triple, RenderedDigests, NoOpNow, OwnerUUID;
    LedgerInvariant(p, w, hs);
    var r := Run(p, w, hs);
    var v := RunPhases(p, r.release.spec, r.release.status, r.cluster, e).verdict;
    var flags, n := Flags(Commits(p, w, hs), ReconcileCounter), CountersOf(r.release.status).reconcile;
    assert IsStreak(flags, CounterOf(CountersOf(r.release.status), ReconcileCounter));
    StreakStep(flags, n, [true]);
    AttemptKeeps(p, r.release.spec, r.release.status, r.cluster, e);
    BackoffLaw(1, n + 1);
    CommitSchedules(RunPhases(p, r.release.spec, r.release.status, r.cluster, e).status, v);
    if v.outcome == FailedTransient {
      assert 1 <= n + 1 && IsStreak(flags + [true], n + 1) && v.retryAfter == ComputeBackoff(n + 1);
    }
  }

  // Conditions

  /** Each committed outcome fixes the Ready, Reconciling and Stalled conditions. */
  lemma OutcomeFixesConditions(p: Params, spec: Spec, st: Status, c: State, e: Env)
    ensures var a := RunPhases(p, spec, st, c, e);
            Triple(Commit(a.status, a.verdict).conditions, a.verdict.outcome)
  {
    hide RunPhases, Commit;
    AttemptKeeps(p, spec, st, c, e);
    var a := RunPhases(p, spec, st, c, e);
    CommitConditions(a.status, a.verdict);
  }

  /** A NoOp verdict is reached exactly when the source, config, render and inventory digests of what is
      asked for and rendered now are those of the last stored success, never by default. */
  lemma NoOpExactly(p: Params, spec: Spec, st: Status, c: State, e: Env)
    ensures RunPhases(p, spec, st, c, e).verdict.outcome == NoOp <==>
            && e.rendering.Rendered?
            && RenderDigest(e.rendering.resources).Some? && Convertible(e.rendering.resources)
            && st.inventory.Some?
            && st.lastApplied.source == ModuleSourceDigest(spec.path, spec.version)
            && st.lastApplied.config == ConfigDigest(p.num, spec.values)
            && Some(st.lastApplied.render) == RenderDigest(e.rendering.resources)
            && st.inventory.value.digest == ComputeDigest(EntriesOf(e.rendering.resources))
  {
    hide RunPhases, RenderDigest, ModuleSourceDigest, ConfigDigest, ComputeDigest, OwnerUUID, Triple;
    AttemptKeeps(p, spec, st, c, e);
    if e.rendering.Rendered? && RenderDigest(e.rendering.resources).Some? {
      var d := RenderedDigests(p, spec, e.rendering.resources);
      assert IsNoOp(d, d) by { RenderedDigestsFull(p, spec, e.rendering.resources); }
    }
  }

  lemma NextKeepsCoherent(p: Params, w: World, h: Happening)
    requires Coherent(w.release.status)
    ensures Coherent(Next(p, w, h).release.status)
  {
    hide RunPhases, Commit, HandleDeletion;
    var r := w.release;
    if h.Reconciles? {
      var a := RunPhases(p, r.spec, r.status, w.cluster, h.env);
      assert Coherent(Commit(a.status, a.verdict)) by { OutcomeFixesConditions(p, r.spec, r.status, w.cluster, h.env); }
      DeletionKeepsCoherent(p, r.spec.prune, r.spec.serviceAccount, r.status.releaseUUID, r.annotations, r.status,
                            w.cluster, DeletionEnvOf(h.env));
    }
  }

  /** In every reachable status Reconciling and Stalled are never both present, and
      Ready=True excludes both. */
  lemma {:induction false} ConditionsCoherent(p: Params, w: World, hs: seq<Happening>)
    requires Coherent(w.release.status)
    ensures Coherent(Run(p, w, hs).release.status)
  {
    hide Next, Coherent;
    if hs != [] {
      ConditionsCoherent(p, w, hs[..|hs| - 1]);
      NextKeepsCoherent(p, Run(p, w, hs[..|hs| - 1]), hs[|hs| - 1]);
    }
  }

  // No-op

  /** After a stored success the next attempt with the same spec and rendering is a no-op: it
      touches neither cluster nor inventory nor history nor last-applied digests. */
  lemma NoOpFixpoint(p: Params, r: Release<Spec>, c: State, e: Env, c': State, e': Env)
    requires r.finalizer && !r.deleting && !r.spec.suspend && e.patched && e'.rendering == e.rendering
    ensures var s := ReconcileStep(p, r, c, e);
            var t := ReconcileStep(p, s.release, c', e');
            s.verdict.Some? && s.verdict.value.reconciled ==>
              && t.verdict.Some? && t.verdict.value.outcome == NoOp
              && t.cluster == c'
              && t.release.status.inventory == s.release.status.inventory
              && t.release.status.history == s.release.status.history
              && t.release.status.lastApplied == s.release.status.lastApplied
              && IsReady(s.release.status) && IsReady(t.release.status)
  {
    hide RunPhases, RenderDigest, Commit, RenderedDigests, IsNoOp, OwnerUUID, ClusterMoved, Triple;
    var s := ReconcileStep(p, r, c, e);
    if s.verdict.value.reconciled {
      var a, b := RunPhases(p, r.spec, r.status, c, e), RunPhases(p, r.spec, s.release.status, c', e');
      AttemptKeeps(p, r.spec, r.status, c, e);
      RenderedDigestsFull(p, r.spec, e.rendering.resources);
      CommittedDigests(a.status, a.verdict);
      assert NoOpNow(p, r.spec, s.release.status, e');
      AttemptKeeps(p, r.spec, s.release.status, c', e');
      AttemptMoves(p, r.spec, s.release.status, c', e');
      ReadyAfter(p, r.spec, r.status, c, e);
      ReadyAfter(p, r.spec, s.release.status, c', e');
      CommitFields(b.status, b.verdict);
    }
  }

  /** The four digests of an attempt that rendered are never empty, so they match themselves. */
  lemma RenderedDigestsFull(p: Params, spec: Spec, rs: seq<Resource>)
    requires RenderDigest(rs).Some?
    ensures var d := RenderedDigests(p, spec, rs);
            IsNoOp(d, d) && d.inventory == ComputeDigest(EntriesOf(rs)) && RenderDigest(rs) == Some(d.render)
  {
  }

  lemma ReadyAfter(p: Params, spec: Spec, st: Status, c: State, e: Env)
    ensures var a := RunPhases(p, spec, st, c, e);
            !Failing(a.verdict.outcome) ==> IsReady(Commit(a.status, a.verdict))
  {
    hide RunPhases, Commit;
    OutcomeFixesConditions(p, spec, st, c, e);
  }

  lemma CommittedDigests(st: Status, v: Verdict)
    requires v.reconciled && v.outcome != NoOp && v.digests.inventory == ComputeDigest(v.entries)
    ensures LastAppliedDigests(Commit(st, v)) == v.digests
  {
    hide Record, ComputeDigest;
  }

  /** The attempt gets through to a prune of stale entries under an impersonated ServiceAccount, and
      the first API status among its errors is Forbidden. */
  ghost predicate PruneForbidden(p: Params, spec: Spec, st: Status, c: State, e: Env) {
    && RenderedWell(e) && !NoOpNow(p, spec, st, e)
    && EffectiveServiceAccount(spec.serviceAccount, p.defaultServiceAccount) != ""
    && e.impersonation == ImpersonationOk && e.apply.ApplyOk?
    && spec.prune && StaleIn(st, e) != []
    && IsForbidden(Errors(Fates(Apply(c, ManifestsOf(e), EVERY), OwnerUUID(st, e), StaleIn(st, e), e.prune)))
  }

  /** An attempt fails without a history entry exactly when its prune is forbidden. */
  lemma SilentStall(p: Params, spec: Spec, st: Status, c: State, e: Env)
    ensures var v := RunPhases(p, spec, st, c, e).verdict;
            Failing(v.outcome) && LogEntry(v) == [] <==> PruneForbidden(p, spec, st, c, e)
  {
    hide RunPhases, ApplyPhase, RenderDigest, RenderedDigests, IsNoOp, Entering, Classified, OwnerUUID, Apply, Fates,
         Errors, IsForbidden, StaleSet;
    AttemptSplits(p, spec, st, c, e);
    if !RenderedWell(e) {
      EarlyStallSpeaks(p, spec, st, c, e);
    } else {
      EnteringKeeps(st, e);
      ApplySilent(p, spec, Entering(st, e), c, e, e.rendering.resources,
                  RenderedDigests(p, spec, e.rendering.resources), EnteringPhases(e));
    }
  }

  lemma ApplySilent(p: Params, spec: Spec, st: Status, c: State, e: Env, rs: seq<Resource>, d: DigestSet, ph: Phases)
    ensures var v := ApplyPhase(p, spec, st, c, e, rs, d, ph).verdict;
            var stale := StaleSet(PreviousEntries(st), EntriesOf(rs));
            Failing(v.outcome) && LogEntry(v) == [] <==>
              && EffectiveServiceAccount(spec.serviceAccount, p.defaultServiceAccount) != ""
              && e.impersonation == ImpersonationOk && e.apply.ApplyOk? && spec.prune && stale != []
              && IsForbidden(Errors(Fates(Apply(c, Manifests(rs), EVERY), st.releaseUUID, stale, e.prune)))
  {
    hide Apply, Pruned, Fates, Errors, StaleSet, ComputeBackoff, Set;
  }

  lemma EarlyStallSpeaks(p: Params, spec: Spec, st: Status, c: State, e: Env)
    requires !RenderedWell(e)
    ensures var v := RunPhases(p, spec, st, c, e).verdict; v.errMsg != ""
  {
    hide ApplyPhase, RenderDigest, ComputeDigest, RenderedDigests, IsNoOp;
  }

  /** What two specs and renderings have in common when no digest tells them apart. */
  ghost predicate SameWork(p: Params, a: Spec, rs: seq<Resource>, b: Spec, qs: seq<Resource>) {
    && ModuleSourceDigest(a.path, a.version) == ModuleSourceDigest(b.path, b.version)
    && ConfigDigest(p.num, a.values) == ConfigDigest(p.num, b.values)
    && RenderDigest(rs) == RenderDigest(qs)
    && multiset(EntriesOf(rs)) == multiset(EntriesOf(qs))
  }

  /** After any run of a release that is not being deleted, an attempt is a no-op exactly when spec and
      rendering are those of the last stored success as far as the four digests can tell: failed
      attempts in between and whatever they or anyone else did to the cluster are not looked at. */
  lemma NoOpDecided(p: Params, w: World, hs: seq<Happening>, e: Env)
    requires Fresh(w) && !Run(p, w, hs).release.deleting
    ensures var r, last := Run(p, w, hs), LastSuccess(Commits(p, w, hs));
            var a := RunPhases(p, r.release.spec, r.release.status, r.cluster, e);
            && (a.verdict.outcome == NoOp <==>
                  && RenderedWell(e) && last.Some? && RenderedWell(last.value.1.env)
                  && SameWork(p, r.release.spec, e.rendering.resources,
                              last.value.1.spec, last.value.1.env.rendering.resources))
            && (a.verdict.outcome == NoOp ==> a.cluster == r.cluster)
  {
    hide RunPhases, RenderDigest, ComputeDigest, ModuleSourceDigest, ConfigDigest, Run, Commits, OwnerUUID, LastSuccess,
         ClusterMoved;
    var r, last := Run(p, w, hs), LastSuccess(Commits(p, w, hs));
    NoOpExactly(p, r.release.spec, r.release.status, r.cluster, e);
    NoOpStays(p, r.release.spec, r.release.status, r.cluster, e);
    StoredDigests(p, w, hs);
    StoredInventory(p, w, hs);
    if last.Some? && e.rendering.Rendered? {
      InventoryDigestDecides(EntriesOf(e.rendering.resources), EntriesOf(last.value.1.env.rendering.resources));
    }
  }

  lemma NoOpStays(p: Params, spec: Spec, st: Status, c: State, e: Env)
    ensures var a := RunPhases(p, spec, st, c, e); a.verdict.outcome == NoOp ==> a.cluster == c
  {
    hide RunPhases, ClusterMoved, NoOpNow, OwnerUUID, RenderedWell, Triple;
    AttemptKeeps(p, spec, st, c, e);
    AttemptMoves(p, spec, st, c, e);
  }

  lemma StoredInventory(p: Params, w: World, hs: seq<Happening>)
    requires Fresh(w) && !Run(p, w, hs).release.deleting
    ensures var inventory, last := Run(p, w, hs).release.status.inventory, LastSuccess(Commits(p, w, hs));
            && (inventory.Some? <==> last.Some?)
            && (last.Some? ==>
                  && last.value.1.env.rendering.Rendered?
                  && inventory.value.entries == EntriesOf(last.value.1.env.rendering.resources)
                  && inventory.value.digest == ComputeDigest(EntriesOf(last.value.1.env.rendering.resources)))
  {
    hide RenderDigest, ComputeDigest, ModuleSourceDigest, ConfigDigest, Next, CommitOf;
    LedgerInvariant(p, w, hs);
    SuccessCounted(Commits(p, w, hs));
    CommitsAreAttempts(p, w, hs);
  }

  /** A no-op after any run means that the last stored success ran under the same module and the same
      configuration (versions without "@", values whose member names are distinct) and rendered the same
      resources and inventory entries. */
  lemma NoOpSound(p: Params, w: World, hs: seq<Happening>, e: Env)
    requires Fresh(w)
    ensures var r, last := Run(p, w, hs), LastSuccess(Commits(p, w, hs));
            RunPhases(p, r.release.spec, r.release.status, r.cluster, e).verdict.outcome == NoOp ==>
              && last.Some? && last.value.1.env.rendering.Rendered? && e.rendering.Rendered?
              && multiset(last.value.1.env.rendering.resources) == multiset(e.rendering.resources)
              && multiset(last.value.0.entries) == multiset(EntriesOf(e.rendering.resources))
              && SameAsked(p, last.value.1.spec, r.release.spec)
  {
    hide RunPhases, RenderDigest, ComputeDigest, ModuleSourceDigest, ConfigDigest, Next, CommitOf, SameAsked;
    var r := Run(p, w, hs);
    var cs := Commits(p, w, hs);
    LedgerInvariant(p, w, hs);
    NoOpExactly(p, r.release.spec, r.release.status, r.cluster, e);
    if RunPhases(p, r.release.spec, r.release.status, r.cluster, e).verdict.outcome == NoOp {
      CommitsAreAttempts(p, w, hs);
      SuccessCounted(cs);
      var rs, last := e.rendering.resources, LastSuccess(cs).value;
      InventoryDigestDecides(last.0.entries, EntriesOf(rs));
      RenderDigestDecides(last.1.env.rendering.resources, rs);
      DigestsTell(p, last.1.spec, r.release.spec);
    }
  }

  /** The same module reference and the same values, as far as each can be told. */
  ghost predicate SameAsked(p: Params, a: Spec, b: Spec) {
    && ('@' !in a.version && '@' !in b.version ==> a.path == b.path && a.version == b.version)
    && (a.values.Parsed? && b.values.Parsed? && DuplicateFree(a.values.tree) && DuplicateFree(b.values.tree) ==>
          SameConfig(p.num, a.values.tree, b.values.tree))
    && (a.values.Parsed? && DuplicateFree(a.values.tree) ==> b.values != Absent)
    && (b.values.Parsed? && DuplicateFree(b.values.tree) ==> a.values != Absent)
  }

  lemma DigestsTell(p: Params, a: Spec, b: Spec)
    requires ModuleSourceDigest(a.path, a.version) == ModuleSourceDigest(b.path, b.version)
    requires ConfigDigest(p.num, a.values) == ConfigDigest(p.num, b.values)
    ensures SameAsked(p, a, b)
  {
    hide ModuleSourceDigest, ConfigDigest, SameConfig, DuplicateFree;
    if '@' !in a.version && '@' !in b.version {
      SourceDigestDecides(a.path, a.version, b.path, b.version);
    }
    if a.values.Parsed? && DuplicateFree(a.values.tree) {
      ConfigDigestDecides(p.num, a.values.tree, a.values.tree);
      if b.values.Parsed? && DuplicateFree(b.values.tree) {
        ConfigDigestDecides(p.num, a.values.tree, b.values.tree);
      }
    }
    if b.values.Parsed? && DuplicateFree(b.values.tree) {
      ConfigDigestDecides(p.num, b.values.tree, b.values.tree);
    }
  }

  /** A stored success carries the digests of the spec it ran under and of what it rendered. */
  ghost predicate Faithful(p: Params, c: (Verdict, Made)) {
    c.0.reconciled ==>
      && RenderedWell(c.1.env)
      && c.0.digests.source == ModuleSourceDigest(c.1.spec.path, c.1.spec.version)
      && c.0.digests.config == ConfigDigest(p.num, c.1.spec.values)
      && Some(c.0.digests.render) == RenderDigest(c.1.env.rendering.resources)
      && c.0.entries == EntriesOf(c.1.env.rendering.resources)
  }

  lemma {:induction false} LastSuccessFaithful(p: Params, cs: seq<(Verdict, Made)>)
    requires forall i :: 0 <= i < |cs| ==> Faithful(p, cs[i])
    ensures LastSuccess(cs).Some? ==> LastSuccess(cs).value.0.reconciled && Faithful(p, LastSuccess(cs).value)
  {
    hide Faithful;
    if cs != [] {
      LastSuccessFaithful(p, cs[..|cs| - 1]);
    }
  }

  lemma CommitFaithful(p: Params, w: World, h: Happening)
    ensures forall x :: x in CommitOf(p, w, h) ==> Faithful(p, x)
  {
    hide RunPhases, Commit, HandleDeletion, RenderDigest, ModuleSourceDigest, ConfigDigest, ComputeDigest, Triple,
         OwnerUUID;
    if h.Reconciles? {
      AttemptKeeps(p, w.release.spec, w.release.status, w.cluster, h.env);
    }
  }

  lemma {:induction false} CommitsFaithful(p: Params, w: World, hs: seq<Happening>)
    ensures forall i :: 0 <= i < |Commits(p, w, hs)| ==> Faithful(p, Commits(p, w, hs)[i])
  {
    hide Faithful, CommitOf, Next;
    if hs != [] {
      CommitsFaithful(p, w, hs[..|hs| - 1]);
      CommitFaithful(p, Run(p, w, hs[..|hs| - 1]), hs[|hs| - 1]);
    }
  }

  lemma CommitsAreAttempts(p: Params, w: World, hs: seq<Happening>)
    ensures var last := LastSuccess(Commits(p, w, hs));
            last.Some? ==> last.value.0.reconciled && Faithful(p, last.value)
  {
    hide Faithful, Commits;
    CommitsFaithful(p, w, hs);
    LastSuccessFaithful(p, Commits(p, w, hs));
  }

  /** In every reachable status the last-applied digests are those of the spec the last stored success ran
      under and of what it rendered. */
  lemma StoredDigests(p: Params, w: World, hs: seq<Happening>)
    requires Fresh(w)
    ensures var st, last := Run(p, w, hs).release.status, LastSuccess(Commits(p, w, hs));
            if last.None? then st.lastApplied == NO_DIGESTS
            else
              var Made(spec, e) := last.value.1;
              && RenderedWell(e)
              && st.lastApplied.source == ModuleSourceDigest(spec.path, spec.version)
              && st.lastApplied.config == ConfigDigest(p.num, spec.values)
              && Some(st.lastApplied.render) == RenderDigest(e.rendering.resources)
  {
    hide RenderDigest, ModuleSourceDigest, ConfigDigest, Next, CommitOf;
    LedgerInvariant(p, w, hs);
    CommitsAreAttempts(p, w, hs);
  }
}
