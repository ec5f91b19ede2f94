/** Concrete runs at which a tempting claim about the ModuleRelease loop fails. */
module Counterexamples {
  import opened Ordering
  import opened Json
  import opened Digests
  import opened Inventory
  import opened Cluster
  import opened Prune
  import opened Status
  import opened Reconcile
  import opened Ledger
  import opened Sweep
  import opened Journal
  import opened ModuleRelease
  import opened AttemptFacts
  import opened Convergence
  import opened LedgerRuns
  import opened ModuleJournal
  import opened NoOpRuns

  // A rendered ConfigMap

  const LABELS := [Member(LABEL_MANAGED_BY, Str("opm-controller"))]

  function Meta(name: string): seq<Member> {
    [Member("labels", Obj(LABELS)), Member("name", Str(name))]
  }

  function ConfigMap(name: string, text: string): Value {
    Obj([Member("apiVersion", Str("v1")), Member("kind", Str("ConfigMap")),
         Member("data", Obj([Member("text", Str(text))])), Member("metadata", Obj(Meta(name)))])
  }

  function IdentOf(name: string): Ident {
    Ident("", "ConfigMap", "", name)
  }

  function EntryOf(name: string): Entry {
    Entry("", "ConfigMap", "", name, "v1", "")
  }

  lemma FindLast(ms: seq<Member>, m: Member, name: string)
    ensures Find(ms + [m], name) == if m.name == name then Some(m.value) else Find(ms, name)
  {
    assert (ms + [m])[..|ms|] == ms;
  }

  lemma FindOne(m: Member, name: string)
    ensures Find([m], name) == if m.name == name then Some(m.value) else None
  {
    FindLast([], m, name);
    assert [] + [m] == [m];
  }

  lemma FindInMeta(name: string, key: string)
    ensures Find(Meta(name), key) ==
            if key == "name" then Some(Str(name)) else if key == "labels" then Some(Obj(LABELS)) else None
  {
    var a, b := Member("labels", Obj(LABELS)), Member("name", Str(name));
    FindOne(a, key);
    FindLast([a], b, key);
    assert Meta(name) == [a] + [b];
  }

  lemma FindInConfigMap(name: string, text: string, key: string)
    requires key == "apiVersion" || key == "kind" || key == "metadata"
    ensures Find(ConfigMap(name, text).members, key) ==
            if key == "apiVersion" then Some(Str("v1"))
            else if key == "kind" then Some(Str("ConfigMap"))
            else Some(Obj(Meta(name)))
  {
    hide Meta;
    var a, b := Member("apiVersion", Str("v1")), Member("kind", Str("ConfigMap"));
    var c, d := Member("data", Obj([Member("text", Str(text))])), Member("metadata", Obj(Meta(name)));
    FindOne(a, key);
    FindLast([a], b, key);
    FindLast([a] + [b], c, key);
    FindLast([a] + [b] + [c], d, key);
    assert ConfigMap(name, text).members == [a] + [b] + [c] + [d];
  }

  lemma AtStep(ms: seq<Member>, path: seq<string>)
    requires path != []
    ensures At(Obj(ms), path) == match Find(ms, path[0]) case Some(w) => At(w, path[1..]) case None => None
  {
  }

  lemma AtEnd(ms: seq<Member>, key: string)
    ensures At(Obj(ms), [key]) == Find(ms, key)
  {
    AtStep(ms, [key]);
  }

  lemma HeadAt(name: string, text: string, key: string)
    requires key == "apiVersion" || key == "kind"
    ensures StringAt(ConfigMap(name, text), [key]) == if key == "kind" then "ConfigMap" else "v1"
  {
    hide Find, At, Meta;
    FindInConfigMap(name, text, key);
    AtEnd(ConfigMap(name, text).members, key);
  }

  lemma MetaAt(name: string, text: string, key: string)
    ensures At(ConfigMap(name, text), ["metadata", key]) == Find(Meta(name), key)
  {
    hide Find, At, Meta;
    FindInConfigMap(name, text, "metadata");
    AtStep(ConfigMap(name, text).members, ["metadata", key]);
    assert ["metadata", key][1..] == [key];
    AtEnd(Meta(name), key);
  }

  lemma LabelAt(name: string, text: string, key: string)
    ensures At(ConfigMap(name, text), ["metadata", "labels", key]) ==
            if key == LABEL_MANAGED_BY then Some(Str("opm-controller")) else None
  {
    hide Find, At, Meta;
    FindInConfigMap(name, text, "metadata");
    FindInMeta(name, "labels");
    FindOne(LABELS[0], key);
    AtStep(ConfigMap(name, text).members, ["metadata", "labels", key]);
    assert ["metadata", "labels", key][1..] == ["labels", key];
    AtStep(Meta(name), ["labels", key]);
    assert ["labels", key][1..] == [key];
    AtEnd(LABELS, key);
  }

  lemma NoSlash()
    ensures Count("v1", '/') == 0
  {
    assert "v1"[..1] == "v" && "v"[..0] == "";
  }

  lemma ConfigMapId(name: string, text: string)
    ensures NewEntryFromResource(ConfigMap(name, text)) == EntryOf(name)
    ensures IdOf(ConfigMap(name, text)) == IdentOf(name)
  {
    hide ConfigMap, Find, At, Count, Meta;
    HeadAt(name, text, "apiVersion");
    HeadAt(name, text, "kind");
    NoSlash();
    MetaAt(name, text, "name");
    MetaAt(name, text, "namespace");
    FindInMeta(name, "name");
    FindInMeta(name, "namespace");
    LabelAt(name, text, LABEL_COMPONENT_NAME);
    assert LABEL_COMPONENT_NAME[0] != LABEL_MANAGED_BY[0];
  }

  /** The object of an applied ConfigMap is OPM-managed and carries no UUID. */
  lemma ConfigMapOwned(name: string, text: string, owner: string)
    ensures Owned(Object(ConfigMap(name, text), map[]), owner)
  {
    hide ConfigMap, At;
    LabelAt(name, text, LABEL_MANAGED_BY);
    LabelAt(name, text, LABEL_RELEASE_UUID);
    assert LABEL_RELEASE_UUID[0] != LABEL_MANAGED_BY[0];
  }

  // Environments and specs

  /** An environment that renders one ConfigMap and answers every other call without a fault. */
  function Renders(name: string, text: string): Env {
    Env(true, Rendered([Resource(ConfigMap(name, text), false)]), NoDrift, ImpersonationOk, ApplyOk,
        (i: nat) => Calls(None, DeleteOk), true, true)
  }

  lemma RendersWell(name: string, text: string)
    ensures Clean(Renders(name, text), [Resource(ConfigMap(name, text), false)])
    ensures ManifestsOf(Renders(name, text)) == [ConfigMap(name, text)]
    ensures EntriesIn(Renders(name, text)) == [EntryOf(name)]
  {
    hide Meta;
    var rs := [Resource(ConfigMap(name, text), false)];
    assert rs[..0] == [];
    assert StableSort(rs, ResourceKey) == Insert([], rs[0], ResourceKey) == rs;
    assert !AnyBroken(rs);
    assert Manifests(rs) == [ConfigMap(name, text)];
    ConfigMapId(name, text);
  }

  function SpecOf(version: string, serviceAccount: string): Spec {
    Spec(false, "m", version, Absent, true, serviceAccount)
  }

  /** A release just created, with its finalizer, in an empty cluster. */
  function Start(serviceAccount: string): World {
    World(Release(SpecOf("1", serviceAccount), true, false, map[], EMPTY), map[])
  }

  /** The first attempt, rendering "x", is a stored success that leaves one object. */
  lemma FirstSuccess(p: Params, serviceAccount: string, text: string)
    ensures var w, e := Start(serviceAccount), Renders("x", text);
            var w1 := Next(p, w, Reconciles(e));
            && Succeeds(p, w, e) && PreviousEntries(w1.release.status) == [EntryOf("x")]
            && w1.cluster == map[IdentOf("x") := Object(ConfigMap("x", text), map[])]
  {
    hide RunPhases, RenderDigest, ConfigMap, ComputeDigest, ConfigDigest, Commit, OwnerUUID, Triple, RenderedDigests;
    var w, e := Start(serviceAccount), Renders("x", text);
    RendersWell("x", text);
    CleanSucceeds(p, w.release.spec, EMPTY, w.cluster, e, e.rendering.resources);
    AttemptRecords(p, w, e);
    assert Sweepings(true, [], e.rendering.resources) == [];
    AppliedAlone("x", text);
  }

  lemma AppliedAlone(name: string, text: string)
    ensures Apply(map[], [ConfigMap(name, text)], EVERY) == map[IdentOf(name) := Object(ConfigMap(name, text), map[])]
  {
    hide ConfigMap, IdOf;
    ConfigMapId(name, text);
    var ms := [ConfigMap(name, text)];
    assert ms[..0] == [];
    assert Apply(map[], ms[..0], EVERY) == map[];
    assert Merge(None, ms[0]) == Object(ms[0], map[]);
  }

  /** After a stored success of version 1, version 2 is no no-op: the source digests differ. */
  lemma VersionsDiffer(p: Params, serviceAccount: string, text: string, f: Env)
    requires RenderedWell(f) && f.impersonation == ImpersonationOk
    ensures var w1 := Next(p, Start(serviceAccount), Reconciles(Renders("x", text)));
            ReachesApply(p, Edited(w1, SpecOf("2", serviceAccount)).release, f)
  {
    hide RunPhases, RenderDigest, ComputeDigest, ConfigDigest, Commit, OwnerUUID, Triple, ConfigMap;
    var w, e := Start(serviceAccount), Renders("x", text);
    FirstSuccess(p, serviceAccount, text);
    var a := RunPhases(p, w.release.spec, EMPTY, w.cluster, e);
    AttemptKeeps(p, w.release.spec, EMPTY, w.cluster, e);
    CommittedDigests(a.status, a.verdict);
    assert "1"[0] != "2"[0];
    assert '@' !in "1" && '@' !in "2";
    SourceDigestDecides("m", "1", "m", "2");
  }

  lemma XIsNotY()
    ensures EntryOf("x") != EntryOf("y") && IdentOf("x") != IdentOf("y")
  {
    assert "x"[0] != "y"[0];
  }

  lemma XIsStale(st: Status, e: Env)
    requires PreviousEntries(st) == [EntryOf("x")] && EntriesIn(e) == [EntryOf("y")]
    ensures StaleIn(st, e) == [EntryOf("x")]
  {
    XIsNotY();
    assert [EntryOf("x")][..0] == [];
    assert !Kept(EntryOf("x"), [EntryOf("y")]);
    assert StaleSet([], [EntryOf("y")]) == [];
  }

  // A failure without a history entry

  function Forbids(e: Env): Env {
    e.(prune := i => Calls(Some(Forbidden), DeleteOk))
  }

  /** A success of version 1, then version 2 with a forbidden prune: the attempt stalls the release and the
      history stays as it was. */
  lemma SilentStallHappens(p: Params)
    ensures var w2 := Edited(Next(p, Start("deployer"), Reconciles(Renders("x", "one"))), SpecOf("2", "deployer"));
            var e := Forbids(Renders("y", "two"));
            var v := RunPhases(p, w2.release.spec, w2.release.status, w2.cluster, e).verdict;
            && v.outcome == FailedStalled && LogEntry(v) == []
            && Next(p, w2, Reconciles(e)).release.status.history == w2.release.status.history
  {
    hide RunPhases, RenderDigest, RenderedDigests, OwnerUUID, Apply, ConfigMap, Commit, Triple, IsNoOp, ReachesApply;
    var w2 := Edited(Next(p, Start("deployer"), Reconciles(Renders("x", "one"))), SpecOf("2", "deployer"));
    var e := Forbids(Renders("y", "two"));
    var r := w2.release;
    RendersWell("y", "two");
    FirstSuccess(p, "deployer", "one");
    VersionsDiffer(p, "deployer", "one", e);
    XIsStale(r.status, e);
    ForbiddenFates(Apply(w2.cluster, ManifestsOf(e), EVERY), OwnerUUID(r.status, e), e.prune);
    assert PruneForbidden(p, r.spec, r.status, w2.cluster, e) by { ReachesMeans(p, r, e); }
    SilentStall(p, r.spec, r.status, w2.cluster, e);
    AttemptKeeps(p, r.spec, r.status, w2.cluster, e);
    var a := RunPhases(p, r.spec, r.status, w2.cluster, e);
    CommitFields(a.status, a.verdict);
  }

  lemma ReachesMeans(p: Params, r: Release<Spec>, e: Env)
    requires ReachesApply(p, r, e)
    ensures RenderedWell(e) && !NoOpNow(p, r.spec, r.status, e)
  {
  }

  lemma ForbiddenFates(c: State, owner: string, api: nat -> Calls)
    requires api(0) == Calls(Some(Forbidden), DeleteOk)
    ensures IsForbidden(Errors(Fates(c, owner, [EntryOf("x")], api)))
  {
    var x := EntryOf("x");
    assert [x][..0] == [];
    assert Fates(c, owner, [x], api) == [Failed(Forbidden)];
    assert [Failed(Forbidden)][..0] == [];
    assert Errors([Failed(Forbidden)]) == [Forbidden];
  }

  // No-ops over a cluster that is not as rendered

  /** Success of version 1, a failed apply of version 2, back to version 1: the next attempt is a no-op and
      the object keeps the text of version 2. */
  lemma RevertLeavesOther(p: Params)
    ensures var e, f := Renders("x", "one"), Renders("x", "two").(apply := ApplyFault(Transport, EVERY));
            var v := Reverted(p, Start(""), e, SpecOf("2", ""), f);
            && IsNoOpAt(p, v, e)
            && ManifestAt(v.cluster, IdentOf("x")) == Some(ConfigMap("x", "two")) != Some(ConfigMap("x", "one"))
  {
    hide RunPhases, RenderDigest, Apply, Pruned, ConfigMap, ComputeDigest, ConfigDigest, Commit, OwnerUUID, Triple,
         ReachesApply;
    var e, f := Renders("x", "one"), Renders("x", "two").(apply := ApplyFault(Transport, EVERY));
    var w2 := Edited(Next(p, Start(""), Reconciles(e)), SpecOf("2", ""));
    RendersWell("x", "two");
    FirstSuccess(p, "", "one");
    VersionsDiffer(p, "", "one", f);
    AttemptReaches(p, w2.release, w2.cluster, f);
    RevertIsBlind(p, Start(""), e, SpecOf("2", ""), f, e);
    assert PassOf(p, w2, Reconciles(f)) == Halted([ConfigMap("x", "two")], EVERY);
    ConfigMapId("x", "two");
    LastForMember([ConfigMap("x", "two")], 0);
    LastForIsMember([ConfigMap("x", "two")], EVERY, IdentOf("x"));
    TextsDiffer();
  }

  lemma TextsDiffer()
    ensures ConfigMap("x", "two") != ConfigMap("x", "one")
  {
    assert "two"[0] != "one"[0];
    assert ConfigMap("x", "two").members[2].value.members[0].value == Str("two");
    assert ConfigMap("x", "one").members[2].value.members[0].value == Str("one");
  }

  /** Success of version 1, a success of version 2 whose status is lost, back to version 1: the next attempt is
      a no-op and leaves the release Ready, and the object of version 1 is gone. */
  lemma RevertLosesObject(p: Params)
    ensures var e, f := Renders("x", "one"), Renders("y", "two").(patched := false);
            var v := Reverted(p, Start(""), e, SpecOf("2", ""), f);
            && IsNoOpAt(p, v, e) && IsReady(Next(p, v, Reconciles(e)).release.status)
            && IdentOf("x") !in Next(p, v, Reconciles(e)).cluster
  {
    hide RunPhases, RenderDigest, Apply, Pruned, ConfigMap, ComputeDigest, ConfigDigest, Commit, OwnerUUID, Triple,
         ReachesApply, Errors, Fates;
    var e, f := Renders("x", "one"), Renders("y", "two").(patched := false);
    var w2 := Edited(Next(p, Start(""), Reconciles(e)), SpecOf("2", ""));
    var v := Reverted(p, Start(""), e, SpecOf("2", ""), f);
    RendersWell("y", "two");
    FirstSuccess(p, "", "one");
    VersionsDiffer(p, "", "one", f);
    RevertIsBlind(p, Start(""), e, SpecOf("2", ""), f, e);
    XIsStale(w2.release.status, f);
    XIsPruned(w2.cluster, OwnerUUID(w2.release.status, f), f.prune);
    ReadyAfter(p, v.release.spec, v.release.status, v.cluster, e);
  }

  lemma XIsPruned(c: State, owner: string, api: nat -> Calls)
    requires c == map[IdentOf("x") := Object(ConfigMap("x", "one"), map[])] && FaultFree(api)
    ensures IdentOf("x") !in Pruned(Apply(c, [ConfigMap("y", "two")], EVERY), owner, [EntryOf("x")], api)
  {
    hide Apply, Pruned, ConfigMap, Errors, Fates, Owned;
    var ms, x := [ConfigMap("y", "two")], IdentOf("x");
    var applied := Apply(c, ms, EVERY);
    XIsNotY();
    ConfigMapId("y", "two");
    LastForNone(ms, EVERY, x);
    ApplyPointwise(c, ms, EVERY, x);
    AfterOwned(Get(c, x), ms, EVERY, x);
    ConfigMapOwned("x", "one", owner);
    FaultFreePrune(applied, owner, [EntryOf("x")], api);
    PruneShape(applied, owner, [EntryOf("x")], api);
    IdsMember([EntryOf("x")], x);
    assert EntryOf("x") in [EntryOf("x")] && Id(EntryOf("x")) == x;
    assert DeletableId(applied, owner, x);
  }

  // A leak

  /** An object first created by an attempt that failed is live and in no inventory after the next success
      of another spec; no success that does not render it will record or prune it. */
  lemma LeakHappens(p: Params)
    ensures var f := Renders("x", "one").(apply := ApplyFault(Transport, EVERY));
            var w2 := Edited(Next(p, Start(""), Reconciles(f)), SpecOf("2", ""));
            var v := Next(p, w2, Reconciles(Renders("y", "two")));
            && IdentOf("x") in v.cluster && IdentOf("x") !in Ids(PreviousEntries(v.release.status))
            && IsReady(v.release.status)
  {
    hide RunPhases, RenderDigest, Apply, ConfigMap, ComputeDigest, ConfigDigest, Commit, OwnerUUID, Triple, Done, Moves,
         RenderedDigests, ReachesApply;
    var f, e := Renders("x", "one").(apply := ApplyFault(Transport, EVERY)), Renders("y", "two");
    var w2 := Edited(Next(p, Start(""), Reconciles(f)), SpecOf("2", ""));
    RendersWell("x", "one");
    RendersWell("y", "two");
    FailedFirst(p, f);
    AppliedAlone("x", "one");
    CleanSucceeds(p, w2.release.spec, w2.release.status, w2.cluster, e, e.rendering.resources);
    SuccessIsFull(p, w2, e);
    LineMoves(p, w2, Reconciles(e));
    assert IdentOf("x") !in RenderedSet(e.rendering.resources) && IdentOf("x") !in Ids([]) by {
      XIsNotY();
      IdsMember(EntriesIn(e), IdentOf("x"));
    }
    SuccessForgets(LineOf(p, w2, Reconciles(e)), IdentOf("x"));
    ReadyAfter(p, w2.release.spec, w2.release.status, w2.cluster, e);
    AttemptKeeps(p, w2.release.spec, w2.release.status, w2.cluster, e);
  }

  /** A first attempt whose apply fails leaves what it applied, and neither inventory nor digests. */
  lemma FailedFirst(p: Params, f: Env)
    requires f.apply.ApplyFault? && RenderedWell(f) && f.impersonation == ImpersonationOk
    ensures var w1 := Next(p, Start(""), Reconciles(f));
            && w1.cluster == Apply(map[], ManifestsOf(f), f.apply.done)
            && PreviousEntries(w1.release.status) == [] && LastAppliedDigests(w1.release.status).source == NoDigest
  {
    hide RunPhases, RenderDigest, Apply, Commit, OwnerUUID, RenderedDigests, Pruned, Errors, Fates;
    AttemptReaches(p, Start("").release, map[], f);
    AttemptRecords(p, Start(""), f);
  }
}
