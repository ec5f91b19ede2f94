/** Many ModuleReleases sharing one cluster, their reconciles interleaved with edits by users and
    by anyone else: no prune and no deletion takes an object stamped by another release. */
module Ownership {
  import opened Json
  import opened Digests
  import opened Inventory
  import opened Cluster
  import opened Prune
  import opened Status
  import opened Reconcile
  import opened ModuleRelease
  import opened Sweep
  import opened AttemptFacts

  datatype World = World(releases: map<string, Release<Spec>>, cluster: State)

  datatype Happening =
    | Reconciles(name: string, env: Env)
    | Created(name: string, spec: Spec)
    | SpecEdited(name: string, spec: Spec)
    | Annotated(name: string, annotations: map<string, string>)
    | DeletionRequested(name: string)
    | ClusterChanged(cluster: State)

  /** A release leaves the API server when it is deleted and has no finalizer left. */
  function Stored(w: World, name: string, r: Release<Spec>): map<string, Release<Spec>> {
    if r.deleting && !r.finalizer then w.releases - {name} else w.releases[name := r]
  }

  function Next(p: Params, w: World, h: Happening): World {
    match h
    case ClusterChanged(c) => w.(cluster := c)
    case Created(x, spec) =>
      if x in w.releases then w
      else w.(releases := w.releases[x := Release(spec, false, false, map[], EMPTY)])
    case Reconciles(x, e) =>
      if x !in w.releases then w
      else
        var s := ReconcileStep(p, w.releases[x], w.cluster, e);
        World(Stored(w, x, s.release), s.cluster)
    case SpecEdited(x, spec) =>
      if x !in w.releases then w else w.(releases := w.releases[x := w.releases[x].(spec := spec)])
    case Annotated(x, a) =>
      if x !in w.releases then w else w.(releases := w.releases[x := w.releases[x].(annotations := a)])
    case DeletionRequested(x) =>
      if x !in w.releases then w else w.(releases := Stored(w, x, w.releases[x].(deleting := true)))
  }

  function Run(p: Params, w: World, hs: seq<Happening>): World {
    if hs == [] then w else Next(p, Run(p, w, hs[..|hs| - 1]), hs[|hs| - 1])
  }

  // Stamping

  function UUIDOf(m: Value): string {
    StringAt(m, LabelPath(LABEL_RELEASE_UUID))
  }

  /** Every manifest release `x` renders carries a non-empty UUID of `x`; `ownerOf` says whose a UUID is. */
  ghost predicate Stamped(ownerOf: string -> string, x: string, e: Env) {
    forall i :: 0 <= i < |ManifestsOf(e)| ==>
      UUIDOf(ManifestsOf(e)[i]) != "" && ownerOf(UUIDOf(ManifestsOf(e)[i])) == x
  }

  ghost predicate AllStamped(ownerOf: string -> string, hs: seq<Happening>) {
    forall i :: 0 <= i < |hs| && hs[i].Reconciles? ==> Stamped(ownerOf, hs[i].name, hs[i].env)
  }

  /** A stored UUID is the release's own, and there is one whenever there is something to prune. */
  ghost predicate Marked(ownerOf: string -> string, x: string, st: Status) {
    && (st.releaseUUID != "" ==> ownerOf(st.releaseUUID) == x)
    && (PreviousEntries(st) != [] ==> st.releaseUUID != "")
  }

  ghost predicate AllMarked(ownerOf: string -> string, w: World) {
    forall x :: x in w.releases ==> Marked(ownerOf, x, w.releases[x].status)
  }

  lemma ExtractedIsStamped(ownerOf: string -> string, x: string, e: Env)
    requires Stamped(ownerOf, x, e)
    ensures var uuid := ExtractUUID(ManifestsOf(e));
            if ManifestsOf(e) == [] then uuid == "" else uuid != "" && ownerOf(uuid) == x
  {
    if ManifestsOf(e) != [] {
      assert UUIDOf(ManifestsOf(e)[0]) != "";
    }
  }

  /** The UUID an attempt prunes under is the release's own, if it has anything to prune. */
  lemma AttemptMarked(p: Params, ownerOf: string -> string, x: string, r: Release<Spec>, c: State, e: Env)
    requires Marked(ownerOf, x, r.status) && Stamped(ownerOf, x, e)
    ensures var a, owner := RunPhases(p, r.spec, r.status, c, e), OwnerUUID(r.status, e);
            && (owner != "" ==> ownerOf(owner) == x) && (PreviousEntries(r.status) != [] ==> owner != "")
            && Marked(ownerOf, x, Commit(a.status, a.verdict))
  {
    hide RunPhases, Commit, ExtractUUID, RenderDigest;
    ExtractedIsStamped(ownerOf, x, e);
    AttemptKeeps(p, r.spec, r.status, c, e);
    var a := RunPhases(p, r.spec, r.status, c, e);
    CommitEntries(a.status, a.verdict);
  }

  lemma CommitEntries(st: Status, v: Verdict)
    requires v.outcome == NoOp ==> !v.reconciled
    ensures Commit(st, v).releaseUUID == st.releaseUUID
    ensures PreviousEntries(Commit(st, v)) == if v.reconciled then v.entries else PreviousEntries(st)
  {
    hide Record, ComputeDigest;
  }

  lemma StepMarked(p: Params, ownerOf: string -> string, x: string, r: Release<Spec>, c: State, e: Env)
    requires Marked(ownerOf, x, r.status) && Stamped(ownerOf, x, e)
    ensures Marked(ownerOf, x, ReconcileStep(p, r, c, e).release.status)
  {
    hide RunPhases, Commit, Pruned, Fates, Errors, IsForbidden;
    AttemptMarked(p, ownerOf, x, r, c, e);
  }

  /** The run invariant behind the ownership guard: in every reachable world a release with an
      inventory to prune has a stored, non-empty UUID of its own. */
  lemma {:induction false} MarksPersist(p: Params, ownerOf: string -> string, w: World, hs: seq<Happening>)
    requires AllMarked(ownerOf, w) && AllStamped(ownerOf, hs)
    ensures AllMarked(ownerOf, Run(p, w, hs))
  {
    if hs != [] {
      hide ReconcileStep, Marked, Stamped;
      var n := |hs| - 1;
      MarksPersist(p, ownerOf, w, hs[..n]);
      var v, h := Run(p, w, hs[..n]), hs[n];
      if h.Reconciles? && h.name in v.releases {
        StepMarked(p, ownerOf, h.name, v.releases[h.name], v.cluster, h.env);
      } else if h.Created? {
        FreshMarked(ownerOf, h.name);
      } else if h.SpecEdited? || h.Annotated? || h.DeletionRequested? {
        assert h.name in v.releases ==> Marked(ownerOf, h.name, v.releases[h.name].status);
      }
    }
  }

  lemma FreshMarked(ownerOf: string -> string, x: string)
    ensures Marked(ownerOf, x, EMPTY)
  {
  }

  // What one reconcile does to one object

  /** The live object carries the UUID of some release other than `x`. */
  ghost predicate Foreign(ownerOf: string -> string, x: string, o: Object) {
    Label(o, LABEL_RELEASE_UUID) != "" && ownerOf(Label(o, LABEL_RELEASE_UUID)) != x
  }

  lemma PruneSparesForeign(ownerOf: string -> string, x: string, c: State, owner: string, es: seq<Entry>,
                           api: nat -> Calls, id: Ident)
    requires owner != "" && ownerOf(owner) == x
    ensures Get(Pruned(c, owner, es, api), id) == Get(c, id) ||
            (Get(Pruned(c, owner, es, api), id) == None && id in Ids(es) && id in c && !Foreign(ownerOf, x, c[id]))
  {
    hide Pruned, IsOPMManagedBy, Label;
    PruneShape(c, owner, es, api);
  }

  lemma ApplySpares(c: State, ms: seq<Value>, done: nat -> bool, id: Ident)
    ensures id in c ==> id in Apply(c, ms, done)
    ensures !RendersId(ms, id) ==> Get(Apply(c, ms, done), id) == Get(c, id)
  {
    ApplyPointwise(c, ms, done, id);
    AfterOwned(Get(c, id), ms, done, id);
    EveryCovers(ms, done, id, []);
  }

  /** An object of another release survives, and stays as it is unless this release renders it. */
  lemma AttemptSparesForeign(p: Params, ownerOf: string -> string, x: string, r: Release<Spec>, c: State, e: Env,
                             id: Ident)
    requires Marked(ownerOf, x, r.status) && Stamped(ownerOf, x, e)
    requires id in c && Foreign(ownerOf, x, c[id])
    ensures var c' := RunPhases(p, r.spec, r.status, c, e).cluster;
            id in c' && (!RendersId(ManifestsOf(e), id) ==> c'[id] == c[id])
  {
    hide RunPhases, Commit, Apply, Pruned, Fates, Errors, StaleSet, OwnerUUID, RenderDigest, Label, LastFor;
    AttemptStops(p, r.spec, r.status, c, e);
    AttemptMarked(p, ownerOf, x, r, c, e);
    var ms, stale := ManifestsOf(e), SweptIn(r.spec, r.status, e);
    ApplySpares(c, ms, EVERY, id);
    PruneStart(Apply(c, ms, EVERY), OwnerUUID(r.status, e), e.prune);
    if e.apply.ApplyFault? {
      ApplySpares(c, ms, e.apply.done, id);
    }
    if RenderedWell(e) && stale != [] {
      NothingBefore(r.status, e);
      PruneSparesForeign(ownerOf, x, Apply(c, ms, EVERY), OwnerUUID(r.status, e), stale, e.prune, id);
      if id in Ids(stale) {
        StaleNotRendered(PreviousEntries(r.status), e.rendering.resources, id);
      }
    }
  }

  lemma NothingBefore(st: Status, e: Env)
    ensures StaleIn(st, e) != [] ==> PreviousEntries(st) != []
  {
  }

  lemma StepSparesForeign(p: Params, ownerOf: string -> string, x: string, r: Release<Spec>, c: State, e: Env,
                          id: Ident)
    requires Marked(ownerOf, x, r.status) && Stamped(ownerOf, x, e)
    requires id in c && Foreign(ownerOf, x, c[id])
    ensures var c' := ReconcileStep(p, r, c, e).cluster;
            id in c' && (!RendersId(ManifestsOf(e), id) ==> c'[id] == c[id])
  {
    hide RunPhases, Commit, Pruned, Fates, Errors, IsForbidden, Label, LastFor, Foreign;
    AttemptSparesForeign(p, ownerOf, x, r, c, e, id);
    if PreviousEntries(r.status) != [] {
      PruneSparesForeign(ownerOf, x, c, r.status.releaseUUID, PreviousEntries(r.status), e.prune, id);
    }
  }

  // Runs

  /** Ownership safety: after any interleaving of stamped releases, the next reconcile of `x` (prune,
      deletion, failed halfway or not) removes no object that carries another release's UUID. */
  lemma OwnershipSafety(p: Params, ownerOf: string -> string, c: State, hs: seq<Happening>, x: string, e: Env,
                        id: Ident)
    requires AllStamped(ownerOf, hs) && Stamped(ownerOf, x, e)
    ensures var w := Run(p, World(map[], c), hs);
            id in w.cluster && id !in Next(p, w, Reconciles(x, e)).cluster ==> !Foreign(ownerOf, x, w.cluster[id])
  {
    hide ReconcileStep, Foreign, Stamped, Marked;
    MarksPersist(p, ownerOf, World(map[], c), hs);
    var w := Run(p, World(map[], c), hs);
    if id in w.cluster && Foreign(ownerOf, x, w.cluster[id]) && x in w.releases {
      StepSparesForeign(p, ownerOf, x, w.releases[x], w.cluster, e, id);
    }
  }

  /** Nothing of the run touches the object of `id` by right: no one edits the cluster, its owner does
      not reconcile, and nobody else renders it. */
  ghost predicate Bystanders(hs: seq<Happening>, owner: string, id: Ident) {
    forall i :: 0 <= i < |hs| ==>
      && !hs[i].ClusterChanged?
      && (hs[i].Reconciles? ==> hs[i].name != owner && !RendersId(ManifestsOf(hs[i].env), id))
  }

  /** Handover: once an object carries the UUID of release `y`, the other releases can drop it from
      their renderings, fail, retry and be deleted, in any order, and it stays exactly as it is. */
  lemma {:induction false} HandoverSurvives(p: Params, ownerOf: string -> string, w: World, hs: seq<Happening>,
                                            y: string, id: Ident)
    requires AllMarked(ownerOf, w) && AllStamped(ownerOf, hs) && Bystanders(hs, y, id)
    requires id in w.cluster && Label(w.cluster[id], LABEL_RELEASE_UUID) != ""
    requires ownerOf(Label(w.cluster[id], LABEL_RELEASE_UUID)) == y
    ensures Get(Run(p, w, hs).cluster, id) == Get(w.cluster, id)
  {
    if hs != [] {
      hide ReconcileStep, Stamped, Marked, LastFor;
      var n := |hs| - 1;
      HandoverSurvives(p, ownerOf, w, hs[..n], y, id);
      MarksPersist(p, ownerOf, w, hs[..n]);
      var v, h := Run(p, w, hs[..n]), hs[n];
      if h.Reconciles? && h.name in v.releases {
        StepSparesForeign(p, ownerOf, h.name, v.releases[h.name], v.cluster, h.env, id);
      }
    }
  }

  // A Release has no UUID to prune under

  /** Deleting a Release (owner "") with every call answered takes every managed object of its
      inventory, whoever's UUID it carries; a ModuleRelease takes only its own and unstamped ones. */
  lemma DeletionTakes(p: Params, sa: string, owner: string, annotations: map<string, string>, st: Status, c: State,
                      e: DeletionEnv, id: Ident)
    requires e.impersonation == ImpersonationOk
    requires Errors(Fates(c, owner, PreviousEntries(st), e.prune)) == []
    requires id in c && id in Ids(PreviousEntries(st))
    requires id.kind != "Namespace" && id.kind != "CustomResourceDefinition"
    requires IsOPMManagedBy(Label(c[id], LABEL_MANAGED_BY)) && Label(c[id], LABEL_RELEASE_UUID) != ""
    ensures id !in HandleDeletion(p, true, sa, owner, annotations, st, c, e).cluster <==>
            owner == "" || owner == Label(c[id], LABEL_RELEASE_UUID)
  {
    hide Pruned, Fates, Errors, IsForbidden;
    PruneShape(c, owner, PreviousEntries(st), e.prune);
  }
}
