/** Many Releases that wait for one another (spec.dependsOn): safety, deadlock and progress over runs. */
module DependsOn {
  import opened Digests
  import opened Inventory
  import opened Cluster
  import opened Prune
  import opened Status
  import opened Reconcile
  import opened ReleaseLoop
  import ReleaseRuns

  datatype Key = Key(namespace: string, name: string)

  datatype World = World(releases: map<Key, Release<Spec>>, cluster: State)

  datatype Happening =
    | Reconciles(key: Key, env: Env, unreadable: string -> bool)
    | Created(key: Key, spec: Spec)
    | SpecEdited(key: Key, spec: Spec)
    | Annotated(key: Key, annotations: map<string, string>)
    | DeletionRequested(key: Key)
    | ClusterChanged(cluster: State)

  /** Reads of other Releases are truthful unless they fail. */
  function LookupIn(w: World, namespace: string, unreadable: string -> bool): string -> Lookup {
    name =>
      if unreadable(name) then LookupError
      else if Key(namespace, name) in w.releases then Found(w.releases[Key(namespace, name)].status)
      else Missing
  }

  function StepOf(p: Params, w: World, h: Happening): Step
    requires h.Reconciles? && h.key in w.releases
  {
    ReconcileStep(p, h.key.namespace, w.releases[h.key], w.cluster,
                  h.env.(lookup := LookupIn(w, h.key.namespace, h.unreadable)))
  }

  /** A release leaves the API server when it is deleted and has no finalizer left. */
  function Stored(w: World, k: Key, r: Release<Spec>): map<Key, Release<Spec>> {
    if r.deleting && !r.finalizer then w.releases - {k} else w.releases[k := r]
  }

  function Next(p: Params, w: World, h: Happening): World {
    if h.ClusterChanged? then w.(cluster := h.cluster)
    else if h.Created? then
      if h.key in w.releases then w
      else w.(releases := w.releases[h.key := Release(h.spec, false, false, map[], EMPTY)])
    else if h.key !in w.releases then w
    else
      var r := w.releases[h.key];
      match h
      case Reconciles(k, _, _) => World(Stored(w, k, StepOf(p, w, h).release), StepOf(p, w, h).cluster)
      case SpecEdited(k, spec) => w.(releases := w.releases[k := r.(spec := spec)])
      case Annotated(k, a) => w.(releases := w.releases[k := r.(annotations := a)])
      case DeletionRequested(k) => w.(releases := Stored(w, k, r.(deleting := true)))
  }

  function Run(p: Params, w: World, hs: seq<Happening>): World {
    if hs == [] then w else Next(p, Run(p, w, hs[..|hs| - 1]), hs[|hs| - 1])
  }

  predicate ReadyIn(w: World, k: Key) {
    k in w.releases && IsReady(w.releases[k].status)
  }

  /** Every dependency of `k` lies in its own namespace and is Ready. */
  predicate DependenciesReady(w: World, k: Key)
    requires k in w.releases
  {
    var deps := w.releases[k].spec.dependsOn;
    forall i :: 0 <= i < |deps| ==>
      (deps[i].namespace == "" || deps[i].namespace == k.namespace) && ReadyIn(w, Key(k.namespace, deps[i].name))
  }

  // Safety

  lemma CheckSeesReady(w: World, k: Key, unreadable: string -> bool)
    requires k in w.releases
    ensures CheckDependsOn(k.namespace, w.releases[k].spec.dependsOn, LookupIn(w, k.namespace, unreadable)) == Satisfied
            ==> DependenciesReady(w, k)
    ensures DependenciesReady(w, k) && (forall name :: !unreadable(name)) ==>
            CheckDependsOn(k.namespace, w.releases[k].spec.dependsOn, LookupIn(w, k.namespace, unreadable)) == Satisfied
  {
    var deps, lookup := w.releases[k].spec.dependsOn, LookupIn(w, k.namespace, unreadable);
    CheckExactly(k.namespace, deps, lookup);
    if CheckDependsOn(k.namespace, deps, lookup) == Satisfied {
      forall i | 0 <= i < |deps|
        ensures deps[i].namespace == "" || deps[i].namespace == k.namespace
        ensures ReadyIn(w, Key(k.namespace, deps[i].name))
      {
        assert Met(k.namespace, deps[i], lookup);
      }
    }
  }

  /** A reconcile turns a release Ready only in an attempt made after the check. */
  lemma StepTurnsReady(p: Params, namespace: string, r: Release<Spec>, c: State, e: Env)
    ensures !IsReady(r.status) && IsReady(ReconcileStep(p, namespace, r, c, e).release.status) ==>
              && CheckDependsOn(namespace, r.spec.dependsOn, e.lookup) == Satisfied
              && r.finalizer && !r.deleting && !r.spec.suspend && e.patched
  {
    hide RunPhases, Commit, Pruned, Fates, Errors, IsForbidden, CheckDependsOn;
  }

  /** Dependency safety: whatever happens, a Release that becomes Ready does so in its own reconcile,
      with its finalizer in place, at a moment when every one of its dependencies is there and Ready. */
  lemma ReadySawDependencies(p: Params, w: World, h: Happening, k: Key)
    ensures !ReadyIn(w, k) && ReadyIn(Next(p, w, h), k) ==>
              h.Reconciles? && h.key == k && k in w.releases && w.releases[k].finalizer && DependenciesReady(w, k)
  {
    hide ReconcileStep, CheckDependsOn, DependenciesReady;
    if h.Reconciles? && h.key in w.releases && h.key == k {
      StepTurnsReady(p, k.namespace, w.releases[k], w.cluster,
                     h.env.(lookup := LookupIn(w, k.namespace, h.unreadable)));
      CheckSeesReady(w, k, h.unreadable);
    }
  }

  // Deadlock

  /** Every Release of the set that exists names a dependency whose key is in the set. */
  ghost predicate Entangled(w: World, stuck: set<Key>) {
    forall k :: k in stuck && k in w.releases ==>
      exists i :: 0 <= i < |w.releases[k].spec.dependsOn| &&
        Key(k.namespace, w.releases[k].spec.dependsOn[i].name) in stuck
  }

  ghost predicate NoneReady(w: World, stuck: set<Key>) {
    forall k :: k in stuck ==> !ReadyIn(w, k)
  }

  lemma EntangledWaits(w: World, stuck: set<Key>, k: Key)
    requires NoneReady(w, stuck) && Entangled(w, stuck) && k in stuck && k in w.releases
    ensures !DependenciesReady(w, k)
  {
    var deps := w.releases[k].spec.dependsOn;
    var i :| 0 <= i < |deps| && Key(k.namespace, deps[i].name) in stuck;
    assert !ReadyIn(w, Key(k.namespace, deps[i].name));
  }

  lemma StuckStep(p: Params, w: World, h: Happening, stuck: set<Key>)
    requires NoneReady(w, stuck) && Entangled(w, stuck)
    ensures NoneReady(Next(p, w, h), stuck)
  {
    hide Next, DependenciesReady, Entangled;
    forall k | k in stuck ensures !ReadyIn(Next(p, w, h), k) {
      if k in w.releases {
        EntangledWaits(w, stuck, k);
      }
      if ReadyIn(Next(p, w, h), k) {
        ReadySawDependencies(p, w, h, k);
      }
    }
  }

  /** Deadlock: Releases of which none is Ready and each waits for another of them stay that way over
      every run, with any edits that keep them waiting for each other. */
  lemma {:induction false} EntangledNeverReady(p: Params, w: World, hs: seq<Happening>, stuck: set<Key>)
    requires NoneReady(w, stuck)
    requires forall n :: 0 <= n <= |hs| ==> Entangled(Run(p, w, hs[..n]), stuck)
    ensures NoneReady(Run(p, w, hs), stuck)
  {
    if hs != [] {
      hide Next, Entangled;
      var n := |hs| - 1;
      forall m | 0 <= m <= n ensures Entangled(Run(p, w, hs[..n][..m]), stuck) {
        assert hs[..n][..m] == hs[..m];
      }
      EntangledNeverReady(p, w, hs[..n], stuck);
      assert Entangled(Run(p, w, hs[..n]), stuck);
      StuckStep(p, Run(p, w, hs[..n]), hs[n], stuck);
    }
  }

  /** In particular a cycle, a Release that depends on itself included. */
  lemma CycleIsEntangled(w: World, cycle: seq<Key>, stuck: set<Key>)
    requires forall i :: 0 <= i < |cycle| && cycle[i] in w.releases ==>
               exists j :: 0 <= j < |w.releases[cycle[i]].spec.dependsOn| &&
                 Key(cycle[i].namespace, w.releases[cycle[i]].spec.dependsOn[j].name) == cycle[(i + 1) % |cycle|]
    requires stuck == set i | 0 <= i < |cycle| :: cycle[i]
    ensures Entangled(w, stuck)
  {
    forall k | k in stuck && k in w.releases
      ensures exists j :: 0 <= j < |w.releases[k].spec.dependsOn| &&
                Key(k.namespace, w.releases[k].spec.dependsOn[j].name) in stuck
    {
      var i :| 0 <= i < |cycle| && cycle[i] == k;
      var j :| 0 <= j < |w.releases[k].spec.dependsOn| &&
        Key(k.namespace, w.releases[k].spec.dependsOn[j].name) == cycle[(i + 1) % |cycle|];
      assert 0 <= (i + 1) % |cycle| < |cycle|;
    }
  }

  // Progress

  /** Every call of the reconcile is answered without a fault. */
  ghost predicate Clean(h: Happening) {
    && h.Reconciles? && h.env.finalized && h.env.source.SourceReady? && h.env.fetched && h.env.navigation == PathFound
    && h.env.package.Package? && RenderDigest(h.env.package.resources).Some? && Convertible(h.env.package.resources)
    && h.env.impersonation == ImpersonationOk && h.env.apply.ApplyOk? && h.env.patched
    && FaultFree(h.env.prune)
    && (forall name :: !h.unreadable(name))
  }

  lemma CleanAttemptSucceeds(p: Params, spec: Spec, st: Status, c: State, h: Happening)
    requires Clean(h)
    ensures !Failing(RunPhases(p, spec, st, c, h.env).verdict.outcome)
  {
    hide Apply, Pruned, Fates, Errors, StaleSet, RenderDigest, ComputeDigest, ConfigDigest, IsNoOp;
    var rs := h.env.package.resources;
    FaultFreePrune(Apply(c, Manifests(rs), EVERY), "", StaleSet(PreviousEntries(st), EntriesOf(rs)), h.env.prune);
  }

  lemma LookupIrrelevant(p: Params, spec: Spec, st: Status, c: State, e: Env, lookup: string -> Lookup)
    ensures RunPhases(p, spec, st, c, e.(lookup := lookup)) == RunPhases(p, spec, st, c, e)
  {
    hide Apply, Pruned, Fates, Errors, StaleSet, RenderDigest, ComputeDigest, ConfigDigest, IsNoOp;
  }

  /** A clean reconcile with every dependency Ready makes the release Ready, and touches no other. */
  lemma CleanStep(p: Params, w: World, h: Happening)
    requires Clean(h) && h.Reconciles? && h.key in w.releases && ReleaseRuns.Running(w.releases[h.key])
    ensures var w' := Next(p, w, h);
            && w'.releases.Keys == w.releases.Keys
            && (forall k :: k in w.releases && k != h.key ==> w'.releases[k] == w.releases[k])
            && ReleaseRuns.Running(w'.releases[h.key]) && w'.releases[h.key].spec == w.releases[h.key].spec
            && (DependenciesReady(w, h.key) ==> ReadyIn(w', h.key))
  {
    hide RunPhases, Commit, CheckDependsOn, Clean, DependenciesReady;
    CleanReads(h);
    var r, lookup := w.releases[h.key], LookupIn(w, h.key.namespace, h.unreadable);
    CheckSeesReady(w, h.key, h.unreadable);
    CleanAttemptSucceeds(p, r.spec, r.status, w.cluster, h);
    LookupIrrelevant(p, r.spec, r.status, w.cluster, h.env, lookup);
    ReleaseRuns.OutcomeFixesConditions(p, r.spec, r.status, w.cluster, h.env);
  }

  lemma CleanReads(h: Happening)
    requires Clean(h)
    ensures h.Reconciles? && h.env.patched && h.env.finalized && forall name :: !h.unreadable(name)
  {
  }

  /** An acyclic graph of Releases: all dependencies exist, in the same namespace, at a smaller depth. */
  ghost predicate Layered(w: World, depth: Key -> nat) {
    forall k :: k in w.releases ==> LayeredAt(w, depth, k)
  }

  ghost predicate LayeredAt(w: World, depth: Key -> nat, k: Key)
    requires k in w.releases
  {
    var deps := w.releases[k].spec.dependsOn;
    forall i :: 0 <= i < |deps| ==>
      && (deps[i].namespace == "" || deps[i].namespace == k.namespace)
      && Key(k.namespace, deps[i].name) in w.releases
      && depth(Key(k.namespace, deps[i].name)) < depth(k)
  }

  ghost predicate AllRunning(w: World) {
    forall k :: k in w.releases ==> ReleaseRuns.Running(w.releases[k])
  }

  /** Everything of depth less than `d` is Ready. */
  ghost predicate ReadyBelow(w: World, depth: Key -> nat, d: nat) {
    forall k :: k in w.releases && depth(k) < d ==> ReadyIn(w, k)
  }

  /** Clean reconciles of existing releases, in any order and number. */
  ghost predicate CleanRun(w: World, hs: seq<Happening>) {
    forall i :: 0 <= i < |hs| ==> Clean(hs[i]) && hs[i].key in w.releases
  }

  /** A round reconciles every release at least once, cleanly. */
  ghost predicate Round(w: World, hs: seq<Happening>) {
    CleanRun(w, hs) && forall k :: k in w.releases ==> exists i :: 0 <= i < |hs| && hs[i].key == k
  }

  /** The shape of the graph, which clean reconciles keep. */
  ghost predicate SameGraph(w: World, w': World) {
    && w'.releases.Keys == w.releases.Keys
    && forall k :: k in w.releases ==> w'.releases[k].spec == w.releases[k].spec
  }

  lemma DepthReady(w: World, depth: Key -> nat, d: nat, k: Key)
    requires Layered(w, depth) && ReadyBelow(w, depth, d) && k in w.releases && depth(k) <= d
    ensures DependenciesReady(w, k)
  {
    assert LayeredAt(w, depth, k);
  }

  lemma SameGraphLayered(w: World, w': World, depth: Key -> nat)
    requires SameGraph(w, w') && Layered(w, depth)
    ensures Layered(w', depth)
  {
    forall k | k in w'.releases ensures LayeredAt(w', depth, k) {
      assert LayeredAt(w, depth, k);
    }
  }

  /** Reconciled so far in this round. */
  ghost predicate Visited(hs: seq<Happening>, k: Key) {
    exists i :: 0 <= i < |hs| && hs[i].Reconciles? && hs[i].key == k
  }

  /** During a round on `w`, now at `v`: everything below depth `d` is Ready, and so is whatever of
      depth `d` was visited. */
  ghost predicate Reached(w: World, v: World, hs: seq<Happening>, depth: Key -> nat, d: nat) {
    && SameGraph(w, v) && AllRunning(v) && ReadyBelow(v, depth, d)
    && forall k :: k in w.releases && depth(k) == d && Visited(hs, k) ==> ReadyIn(v, k)
  }

  lemma RoundStep(p: Params, w: World, v: World, hs: seq<Happening>, depth: Key -> nat, d: nat)
    requires Layered(w, depth) && hs != [] && Reached(w, v, hs[..|hs| - 1], depth, d)
    requires var h := hs[|hs| - 1]; Clean(h) && h.Reconciles? && h.key in w.releases
    ensures Reached(w, Next(p, v, hs[|hs| - 1]), hs, depth, d)
  {
    hide Next, Clean, ReleaseRuns.Running, DependenciesReady, Layered, Visited, IsReady;
    var h := hs[|hs| - 1];
    SameGraphLayered(w, v, depth);
    CleanStep(p, v, h);
    if depth(h.key) <= d {
      DepthReady(v, depth, d, h.key);
    }
    forall k | k in w.releases && depth(k) == d && Visited(hs, k) ensures ReadyIn(Next(p, v, h), k) {
      if k != h.key {
        VisitedBefore(hs, k);
      }
    }
  }

  lemma {:induction false} RoundAdvances(p: Params, w: World, hs: seq<Happening>, depth: Key -> nat, d: nat)
    requires Layered(w, depth) && AllRunning(w) && ReadyBelow(w, depth, d) && CleanRun(w, hs)
    ensures Reached(w, Run(p, w, hs), hs, depth, d)
  {
    hide Next, Clean, ReleaseRuns.Running, Layered, Visited;
    if hs == [] {
      assert forall k :: !Visited(hs, k) by { NothingVisited(); }
    } else {
      var n := |hs| - 1;
      RoundAdvances(p, w, hs[..n], depth, d);
      CleanReads(hs[n]);
      RoundStep(p, w, Run(p, w, hs[..n]), hs, depth, d);
    }
  }

  lemma NothingVisited()
    ensures forall k :: !Visited([], k)
  {
  }

  lemma VisitedBefore(hs: seq<Happening>, k: Key)
    requires Visited(hs, k) && hs != [] && (hs[|hs| - 1].Reconciles? ==> hs[|hs| - 1].key != k)
    ensures Visited(hs[..|hs| - 1], k)
  {
    var i :| 0 <= i < |hs| && hs[i].Reconciles? && hs[i].key == k;
    assert hs[..|hs| - 1][i] == hs[i];
  }

  function RunRounds(p: Params, w: World, rounds: seq<seq<Happening>>): World {
    if rounds == [] then w else Run(p, RunRounds(p, w, rounds[..|rounds| - 1]), rounds[|rounds| - 1])
  }

  lemma RoundVisits(w: World, hs: seq<Happening>, k: Key)
    requires Round(w, hs) && k in w.releases
    ensures Visited(hs, k)
  {
    var i :| 0 <= i < |hs| && hs[i].key == k;
    CleanReads(hs[i]);
  }

  lemma RoundCompletes(p: Params, w: World, hs: seq<Happening>, depth: Key -> nat, d: nat)
    requires Layered(w, depth) && AllRunning(w) && ReadyBelow(w, depth, d) && Round(w, hs)
    ensures var w' := Run(p, w, hs); SameGraph(w, w') && AllRunning(w') && ReadyBelow(w', depth, d + 1)
  {
    hide Run, Clean, ReleaseRuns.Running, Layered, IsReady, Visited, Round;
    assert CleanRun(w, hs) by { RoundIsClean(w, hs); }
    RoundAdvances(p, w, hs, depth, d);
    forall k | k in w.releases && depth(k) == d ensures ReadyIn(Run(p, w, hs), k) {
      RoundVisits(w, hs, k);
    }
  }

  lemma RoundIsClean(w: World, hs: seq<Happening>)
    requires Round(w, hs)
    ensures CleanRun(w, hs)
  {
  }

  /** Progress: in an acyclic graph of running Releases every Release of depth k is Ready after k + 1
      rounds of clean reconciles, in whatever order each round takes them. */
  lemma {:induction false} DepthReadyAfterRounds(p: Params, w: World, rounds: seq<seq<Happening>>, depth: Key -> nat)
    requires Layered(w, depth) && AllRunning(w)
    requires forall i :: 0 <= i < |rounds| ==> Round(w, rounds[i])
    ensures var w' := RunRounds(p, w, rounds);
            SameGraph(w, w') && AllRunning(w') && forall k :: k in w.releases && depth(k) < |rounds| ==> ReadyIn(w', k)
  {
    if rounds != [] {
      hide Run, Layered, AllRunning, Clean;
      var n := |rounds| - 1;
      DepthReadyAfterRounds(p, w, rounds[..n], depth);
      var v := RunRounds(p, w, rounds[..n]);
      SameGraphLayered(w, v, depth);
      assert Round(v, rounds[n]) by { assert Round(w, rounds[n]); }
      RoundCompletes(p, v, rounds[n], depth, n);
    }
  }

  /** Neither being deleted nor suspended; the finalizer may be missing. */
  ghost predicate AllAlive(w: World) {
    forall k :: k in w.releases ==> !w.releases[k].deleting && !w.releases[k].spec.suspend
  }

  ghost predicate Finalized(w: World, v: World, hs: seq<Happening>) {
    && SameGraph(w, v) && AllAlive(v)
    && forall k :: k in w.releases && (w.releases[k].finalizer || Visited(hs, k)) ==> v.releases[k].finalizer
  }

  lemma AliveStep(p: Params, v: World, h: Happening)
    requires AllAlive(v) && h.Reconciles? && h.env.finalized && h.key in v.releases
    ensures var v' := Next(p, v, h); SameGraph(v, v') && AllAlive(v') && v'.releases[h.key].finalizer
    ensures forall k :: k in v.releases && k != h.key ==> Next(p, v, h).releases[k] == v.releases[k]
  {
    hide RunPhases, Commit, CheckDependsOn;
  }

  lemma {:induction false} RoundFinalizes(p: Params, w: World, hs: seq<Happening>)
    requires AllAlive(w) && CleanRun(w, hs)
    ensures Finalized(w, Run(p, w, hs), hs)
  {
    hide Next, Clean, Visited;
    if hs == [] {
      assert forall k :: !Visited(hs, k) by { NothingVisited(); }
    } else {
      var n := |hs| - 1;
      RoundFinalizes(p, w, hs[..n]);
      CleanReads(hs[n]);
      var v := Run(p, w, hs[..n]);
      AliveStep(p, v, hs[n]);
      forall k | k in w.releases && Visited(hs, k) && k != hs[n].key ensures v.releases[k].finalizer {
        VisitedBefore(hs, k);
      }
    }
  }

  /** Releases just created first get their finalizer: one round more. */
  lemma DepthReadyFromScratch(p: Params, w: World, first: seq<Happening>, rounds: seq<seq<Happening>>,
                              depth: Key -> nat)
    requires Layered(w, depth) && AllAlive(w) && Round(w, first)
    requires forall i :: 0 <= i < |rounds| ==> Round(w, rounds[i])
    ensures var w' := RunRounds(p, Run(p, w, first), rounds);
            forall k :: k in w.releases && depth(k) < |rounds| ==> ReadyIn(w', k)
  {
    hide Next, Run, Clean, Layered, Visited;
    assert CleanRun(w, first) by { RoundIsClean(w, first); }
    RoundFinalizes(p, w, first);
    var v := Run(p, w, first);
    forall k | k in w.releases ensures ReleaseRuns.Running(v.releases[k]) {
      RoundVisits(w, first, k);
    }
    SameGraphLayered(w, v, depth);
    DepthReadyAfterRounds(p, v, rounds, depth);
  }

  // No faster

  /** Reconciles only, whatever their outcomes, dependents before their dependencies. */
  ghost predicate Descending(hs: seq<Happening>, depth: Key -> nat) {
    && (forall i :: 0 <= i < |hs| ==> hs[i].Reconciles?)
    && (forall i, j :: 0 <= i < j < |hs| ==> depth(hs[j].key) <= depth(hs[i].key))
  }

  /** A Release of depth d + 1 has a dependency of depth d. */
  ghost predicate Linked(w: World, depth: Key -> nat) {
    forall k :: k in w.releases && depth(k) > 0 ==>
      exists i :: 0 <= i < |w.releases[k].spec.dependsOn| &&
        depth(Key(k.namespace, w.releases[k].spec.dependsOn[i].name)) == depth(k) - 1
  }

  ghost predicate SubGraph(w: World, v: World) {
    forall k :: k in v.releases ==> k in w.releases && v.releases[k].spec == w.releases[k].spec
  }

  lemma ReconcileKeepsSpecs(p: Params, w: World, v: World, h: Happening)
    requires SubGraph(w, v) && h.Reconciles?
    ensures SubGraph(w, Next(p, v, h))
  {
    hide RunPhases, Commit, CheckDependsOn, HandleDeletion;
  }

  /** In a descending round on `w`, now at `v`: nothing of depth more than `d` is Ready, nor anything of
      depth `d` that was not visited. */
  ghost predicate Lagging(w: World, v: World, hs: seq<Happening>, depth: Key -> nat, d: nat) {
    && SubGraph(w, v)
    && forall k :: depth(k) > d || (depth(k) == d && !Visited(hs, k)) ==> !ReadyIn(v, k)
  }

  lemma DescendingNotVisited(hs: seq<Happening>, depth: Key -> nat, x: Key)
    requires hs != [] && Descending(hs, depth) && depth(x) < depth(hs[|hs| - 1].key)
    ensures !Visited(hs[..|hs| - 1], x)
  {
  }

  lemma LagStep(p: Params, w: World, v: World, hs: seq<Happening>, depth: Key -> nat, d: nat)
    requires Linked(w, depth) && hs != [] && Descending(hs, depth) && Lagging(w, v, hs[..|hs| - 1], depth, d)
    ensures Lagging(w, Next(p, v, hs[|hs| - 1]), hs, depth, d)
  {
    hide Next, IsReady;
    var h, prefix := hs[|hs| - 1], hs[..|hs| - 1];
    ReconcileKeepsSpecs(p, w, v, h);
    forall k | depth(k) > d || (depth(k) == d && !Visited(hs, k)) ensures !ReadyIn(Next(p, v, h), k) {
      ReadySawDependencies(p, v, h, k);
      if k == h.key {
        assert hs[|hs| - 1].key == k;
        if k in v.releases {
          WaitsForUnvisited(w, v, hs, depth, d);
        }
      } else {
        assert Visited(prefix, k) ==> Visited(hs, k) by { VisitedGrows(hs, k); }
      }
    }
  }

  lemma VisitedGrows(hs: seq<Happening>, k: Key)
    requires hs != []
    ensures Visited(hs[..|hs| - 1], k) ==> Visited(hs, k)
  {
  }

  /** The Release visited last waits for one that is not Ready. */
  lemma WaitsForUnvisited(w: World, v: World, hs: seq<Happening>, depth: Key -> nat, d: nat)
    requires Linked(w, depth) && hs != [] && Descending(hs, depth) && Lagging(w, v, hs[..|hs| - 1], depth, d)
    requires hs[|hs| - 1].key in v.releases && depth(hs[|hs| - 1].key) > d
    ensures !DependenciesReady(v, hs[|hs| - 1].key)
  {
    var k := hs[|hs| - 1].key;
    var deps := w.releases[k].spec.dependsOn;
    var i :| 0 <= i < |deps| && depth(Key(k.namespace, deps[i].name)) == depth(k) - 1;
    DescendingNotVisited(hs, depth, Key(k.namespace, deps[i].name));
    assert !ReadyIn(v, Key(k.namespace, deps[i].name));
  }

  lemma {:induction false} LagRound(p: Params, w: World, v: World, hs: seq<Happening>, depth: Key -> nat, d: nat)
    requires Linked(w, depth) && SubGraph(w, v) && Descending(hs, depth)
    requires forall k :: depth(k) >= d ==> !ReadyIn(v, k)
    ensures Lagging(w, Run(p, v, hs), hs, depth, d)
  {
    hide Next, Linked, Visited, ReadyIn;
    if hs != [] {
      LagRound(p, w, v, hs[..|hs| - 1], depth, d);
      LagStep(p, w, Run(p, v, hs[..|hs| - 1]), hs, depth, d);
    }
  }

  /** The bound is tight: when nothing is Ready at first and every round visits dependents before their
      dependencies, a Release of depth k is not Ready after k rounds, whatever the calls return. */
  lemma {:induction false} DepthNotReadyBefore(p: Params, w: World, v: World, rounds: seq<seq<Happening>>,
                                               depth: Key -> nat)
    requires Linked(w, depth) && SubGraph(w, v) && forall k :: !ReadyIn(v, k)
    requires forall i :: 0 <= i < |rounds| ==> Descending(rounds[i], depth)
    ensures var v' := RunRounds(p, v, rounds);
            SubGraph(w, v') && forall k :: depth(k) >= |rounds| ==> !ReadyIn(v', k)
  {
    hide Run, Linked, SubGraph, ReadyIn, Visited;
    if rounds != [] {
      var n := |rounds| - 1;
      DepthNotReadyBefore(p, w, v, rounds[..n], depth);
      LagRound(p, w, RunRounds(p, v, rounds[..n]), rounds[n], depth, n);
    }
  }

  /** Each key at most once. */
  ghost predicate Once(hs: seq<Happening>) {
    && (forall i :: 0 <= i < |hs| ==> hs[i].Reconciles?)
    && (forall i, j :: 0 <= i < j < |hs| ==> hs[i].key != hs[j].key)
  }

  /** One visit only gives a fresh Release its finalizer. */
  lemma {:induction false} OneVisitIsNotEnough(p: Params, w: World, hs: seq<Happening>)
    requires Once(hs) && forall k :: k in w.releases ==> !w.releases[k].finalizer && !ReadyIn(w, k)
    ensures var v := Run(p, w, hs);
            && SubGraph(w, v) && (forall k :: !ReadyIn(v, k))
            && (forall k :: k in v.releases && !Visited(hs, k) ==> !v.releases[k].finalizer)
  {
    if hs != [] {
      hide ReadyIn;
      var n := |hs| - 1;
      OneVisitIsNotEnough(p, w, hs[..n]);
      var v, h := Run(p, w, hs[..n]), hs[n];
      ReconcileKeepsSpecs(p, w, v, h);
      assert !Visited(hs[..n], h.key);
      forall k ensures !ReadyIn(Next(p, v, h), k) {
        ReadySawDependencies(p, v, h, k);
      }
      forall k | k in Next(p, v, h).releases && !Visited(hs, k) ensures !Next(p, v, h).releases[k].finalizer {
        VisitedGrows(hs, k);
        assert k != h.key;
      }
    }
  }

  /** Fresh Releases visited once a round, dependents first, are one round slower: depth k is not Ready
      after k + 1 rounds. */
  lemma DepthNotReadyFromScratch(p: Params, w: World, first: seq<Happening>, rounds: seq<seq<Happening>>,
                                 depth: Key -> nat)
    requires Linked(w, depth) && Once(first)
    requires forall k :: k in w.releases ==> !w.releases[k].finalizer && !ReadyIn(w, k)
    requires forall i :: 0 <= i < |rounds| ==> Descending(rounds[i], depth)
    ensures var w' := RunRounds(p, Run(p, w, first), rounds);
            forall k :: depth(k) >= |rounds| ==> !ReadyIn(w', k)
  {
    hide Linked, SubGraph, ReadyIn, Visited, Next;
    OneVisitIsNotEnough(p, w, first);
    DepthNotReadyBefore(p, w, Run(p, w, first), rounds, depth);
  }
}
