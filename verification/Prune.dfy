/** Fail-slow pruning behind a live ownership guard (internal/apply/prune.go). */
module Prune {
  import opened Json
  import opened Inventory
  import opened Cluster

  /** A failed API call: a Forbidden status, another API status, or no API status at all. */
  datatype Fault = Forbidden | OtherStatus | Transport

  datatype DeleteCall = DeleteOk | DeleteNotFound | DeleteFault(fault: Fault)

  /** How the API server answers for one entry: a fault on Get or a truthful read; then Delete. */
  datatype Calls = Calls(getFault: Option<Fault>, delete: DeleteCall)

  datatype Fate =
    | SafetyExcluded
    | AlreadyGone
    | NotManaged
    | OtherOwner
    | Vanished
    | Deleted
    | Failed(fault: Fault)

  predicate IsSafeToDelete(e: Entry) {
    e.kind != "Namespace" && e.kind != "CustomResourceDefinition"
  }

  /** The live object may be deleted by a release with this UUID. */
  predicate Owned(o: Object, ownerUUID: string) {
    && IsOPMManagedBy(Label(o, LABEL_MANAGED_BY))
    && (ownerUUID == "" || Label(o, LABEL_RELEASE_UUID) == "" || Label(o, LABEL_RELEASE_UUID) == ownerUUID)
  }

  function FateOf(c: State, ownerUUID: string, e: Entry, calls: Calls): Fate {
    if !IsSafeToDelete(e) then SafetyExcluded
    else if calls.getFault.Some? then Failed(calls.getFault.value)
    else if Id(e) !in c then AlreadyGone
    else if !IsOPMManagedBy(Label(c[Id(e)], LABEL_MANAGED_BY)) then NotManaged
    else if !Owned(c[Id(e)], ownerUUID) then OtherOwner
    else match calls.delete
      case DeleteOk => Deleted
      case DeleteNotFound => Vanished
      case DeleteFault(f) => Failed(f)
  }

  predicate Removes(f: Fate) {
    f.Deleted? || f.Vanished?
  }

  function AfterEntry(c: State, e: Entry, f: Fate): State {
    if Removes(f) then c - {Id(e)} else c
  }

  /** The cluster after pruning, entry by entry; `api(i)` answers for entry i. */
  function Pruned(c: State, ownerUUID: string, stale: seq<Entry>, api: nat -> Calls): State {
    if stale == [] then c
    else
      var n := |stale| - 1;
      var c' := Pruned(c, ownerUUID, stale[..n], api);
      AfterEntry(c', stale[n], FateOf(c', ownerUUID, stale[n], api(n)))
  }

  function Fates(c: State, ownerUUID: string, stale: seq<Entry>, api: nat -> Calls): (fs: seq<Fate>)
    ensures |fs| == |stale|
  {
    if stale == [] then []
    else
      var n := |stale| - 1;
      Fates(c, ownerUUID, stale[..n], api) +
      [FateOf(Pruned(c, ownerUUID, stale[..n], api), ownerUUID, stale[n], api(n))]
  }

  function Tally(fs: seq<Fate>, kinds: set<Fate>): nat {
    if fs == [] then 0 else Tally(fs[..|fs| - 1], kinds) + (if fs[|fs| - 1] in kinds then 1 else 0)
  }

  const SKIPPED: set<Fate> := {SafetyExcluded, NotManaged, OtherOwner}
  const GONE: set<Fate> := {AlreadyGone, Vanished}

  /** The joined errors, in order. */
  function Errors(fs: seq<Fate>): seq<Fault> {
    if fs == [] then []
    else Errors(fs[..|fs| - 1]) + (if fs[|fs| - 1].Failed? then [fs[|fs| - 1].fault] else [])
  }

  /** isForbidden on a joined error: the first API status in the chain decides. */
  predicate IsForbidden(errs: seq<Fault>) {
    |errs| > 0 && (errs[0] == Forbidden || (errs[0] == Transport && IsForbidden(errs[1..])))
  }

  /** A joined error is forbidden exactly when the first API status among its errors is. */
  lemma {:induction false} ForbiddenExactly(errs: seq<Fault>)
    ensures IsForbidden(errs) <==>
            exists i :: 0 <= i < |errs| && errs[i] == Forbidden && forall j :: 0 <= j < i ==> errs[j] == Transport
  {
    if errs != [] {
      ForbiddenExactly(errs[1..]);
      if errs[0] == Transport {
        if IsForbidden(errs[1..]) {
          var k :| 0 <= k < |errs[1..]| && errs[1..][k] == Forbidden &&
                   forall j :: 0 <= j < k ==> errs[1..][j] == Transport;
          assert errs[k + 1] == Forbidden;
          assert forall j :: 1 <= j < k + 1 ==> errs[j] == errs[1..][j - 1];
        }
        forall i | 0 <= i < |errs| && errs[i] == Forbidden && forall j :: 0 <= j < i ==> errs[j] == Transport
          ensures IsForbidden(errs[1..])
        {
          assert errs[1..][i - 1] == Forbidden;
          assert forall j :: 0 <= j < i - 1 ==> errs[1..][j] == errs[j + 1];
        }
      }
    }
  }

  datatype Result = Result(deleted: nat, skipped: nat, errs: seq<Fault>)

  function ResultOf(fs: seq<Fate>): Result {
    Result(Tally(fs, {Deleted}), Tally(fs, SKIPPED), Errors(fs))
  }

  lemma PruneStart(c: State, ownerUUID: string, api: nat -> Calls)
    ensures Pruned(c, ownerUUID, [], api) == c && ResultOf(Fates(c, ownerUUID, [], api)) == Result(0, 0, [])
  {
  }

  lemma PruneStep(c: State, ownerUUID: string, stale: seq<Entry>, api: nat -> Calls, i: nat)
    requires i < |stale|
    ensures var c' := Pruned(c, ownerUUID, stale[..i], api);
            var f := FateOf(c', ownerUUID, stale[i], api(i));
            var before := ResultOf(Fates(c, ownerUUID, stale[..i], api));
            && Pruned(c, ownerUUID, stale[..i + 1], api) == AfterEntry(c', stale[i], f)
            && ResultOf(Fates(c, ownerUUID, stale[..i + 1], api)) ==
               Result(before.deleted + (if f == Deleted then 1 else 0),
                      before.skipped + (if f in SKIPPED then 1 else 0),
                      before.errs + (if f.Failed? then [f.fault] else []))
  {
    assert stale[..i + 1][..i] == stale[..i];
    var fs := Fates(c, ownerUUID, stale[..i + 1], api);
    assert fs[..i] == Fates(c, ownerUUID, stale[..i], api);
  }

  /** The API server's store of objects; pruning deletes from it in place. */
  class Store {
    var objects: State

    constructor (objects: State)
      ensures this.objects == objects
    {
      this.objects := objects;
    }

    /** The source's loop: counters and collected errors, no entry left unvisited. */
    method Prune(ownerUUID: string, stale: seq<Entry>, api: nat -> Calls) returns (result: Result)
      modifies this
      ensures objects == Pruned(old(objects), ownerUUID, stale, api)
      ensures result == ResultOf(Fates(old(objects), ownerUUID, stale, api))
    {
      hide Pruned, ResultOf, Label, IsOPMManagedBy;
      var deleted, skipped, errs := 0, 0, [];
      ghost var before := objects;
      PruneStart(before, ownerUUID, api);
      for i := 0 to |stale|
        invariant objects == Pruned(before, ownerUUID, stale[..i], api)
        invariant Result(deleted, skipped, errs) == ResultOf(Fates(before, ownerUUID, stale[..i], api))
      {
        var entry := stale[i];
        PruneStep(before, ownerUUID, stale, api, i);
        if !IsSafeToDelete(entry) {
          skipped := skipped + 1;
          continue;
        }
        if api(i).getFault.Some? {
          errs := errs + [api(i).getFault.value];
          continue;
        }
        if Id(entry) !in objects {
          continue;
        }
        var live := objects[Id(entry)];
        if !IsOPMManagedBy(Label(live, LABEL_MANAGED_BY)) {
          skipped := skipped + 1;
          continue;
        }
        var liveUUID := Label(live, LABEL_RELEASE_UUID);
        if ownerUUID != "" && liveUUID != "" && liveUUID != ownerUUID {
          skipped := skipped + 1;
          continue;
        }
        match api(i).delete {
          case DeleteOk =>
            objects := objects - {Id(entry)};
            deleted := deleted + 1;
          case DeleteNotFound =>
            objects := objects - {Id(entry)};
          case DeleteFault(f) =>
            errs := errs + [f];
        }
      }
      assert stale[..|stale|] == stale;
      result := Result(deleted, skipped, errs);
    }
  }

  // What pruning does to the cluster

  ghost function Ids(es: seq<Entry>): set<Ident> {
    if es == [] then {} else Ids(es[..|es| - 1]) + {Id(es[|es| - 1])}
  }

  ghost predicate DeletableId(c: State, ownerUUID: string, id: Ident) {
    && id in c && Owned(c[id], ownerUUID)
    && id.kind != "Namespace" && id.kind != "CustomResourceDefinition"
  }

  /** The live, deletable identities of a list of entries. */
  ghost function Deletable(c: State, ownerUUID: string, es: seq<Entry>): set<Ident> {
    set id | id in Ids(es) && DeletableId(c, ownerUUID, id)
  }

  ghost function Removed(c: State, ownerUUID: string, stale: seq<Entry>, api: nat -> Calls): set<Ident> {
    c.Keys - Pruned(c, ownerUUID, stale, api).Keys
  }

  lemma RemovedStep(c: State, ownerUUID: string, stale: seq<Entry>, api: nat -> Calls)
    requires stale != []
    ensures var n := |stale| - 1;
            var c' := Pruned(c, ownerUUID, stale[..n], api);
            var f := FateOf(c', ownerUUID, stale[n], api(n));
            && (Removes(f) ==> Id(stale[n]) in c')
            && (c' == c - Removed(c, ownerUUID, stale[..n], api) ==>
                  Removed(c, ownerUUID, stale, api) ==
                  Removed(c, ownerUUID, stale[..n], api) + (if Removes(f) then {Id(stale[n])} else {}))
  {
  }

  /** Pruning only takes objects away, only deletable ones, and every deletable one if it
      ends without an error. */
  lemma {:induction false} PruneShape(c: State, ownerUUID: string, stale: seq<Entry>, api: nat -> Calls)
    ensures Pruned(c, ownerUUID, stale, api) == c - Removed(c, ownerUUID, stale, api)
    ensures Removed(c, ownerUUID, stale, api) <= Deletable(c, ownerUUID, stale)
    ensures Errors(Fates(c, ownerUUID, stale, api)) == [] ==>
              Removed(c, ownerUUID, stale, api) == Deletable(c, ownerUUID, stale)
  {
    if stale != [] {
      var n := |stale| - 1;
      PruneShape(c, ownerUUID, stale[..n], api);
      RemovedStep(c, ownerUUID, stale, api);
      assert Fates(c, ownerUUID, stale, api)[..n] == Fates(c, ownerUUID, stale[..n], api);
    }
  }

  lemma {:induction false} ErrorsAppend(fs: seq<Fate>, gs: seq<Fate>)
    ensures Errors(fs + gs) == Errors(fs) + Errors(gs)
  {
    if gs == [] {
      assert fs + gs == fs;
    } else {
      var n := |gs| - 1;
      var all := fs + gs;
      assert all[..|all| - 1] == fs + gs[..n] && all[|all| - 1] == gs[n];
      ErrorsAppend(fs, gs[..n]);
    }
  }

  /** The errors of a list are those of its parts, in order, one for each entry that failed. */
  lemma ErrorsInOrder(fs: seq<Fate>, gs: seq<Fate>, f: Fate)
    ensures Errors(fs + gs) == Errors(fs) + Errors(gs)
    ensures Errors([f]) == if f.Failed? then [f.fault] else []
  {
    ErrorsAppend(fs, gs);
    assert [f][..0] == [];
  }

  lemma {:induction false} FatesPartition(fs: seq<Fate>)
    ensures |fs| == Tally(fs, {Deleted}) + Tally(fs, SKIPPED) + Tally(fs, GONE) + |Errors(fs)|
  {
    if fs != [] {
      FatesPartition(fs[..|fs| - 1]);
    }
  }

  lemma {:induction false} RemovedCount(c: State, ownerUUID: string, stale: seq<Entry>, api: nat -> Calls)
    ensures |Removed(c, ownerUUID, stale, api)| == Tally(Fates(c, ownerUUID, stale, api), {Deleted, Vanished})
  {
    if stale != [] {
      var n := |stale| - 1;
      RemovedCount(c, ownerUUID, stale[..n], api);
      PruneShape(c, ownerUUID, stale[..n], api);
      RemovedStep(c, ownerUUID, stale, api);
      assert Fates(c, ownerUUID, stale, api)[..n] == Fates(c, ownerUUID, stale[..n], api);
    }
  }

  /** Each entry is deleted, skipped, already gone or an error, and each removal is one
      identity less: nothing is visited twice and nothing is left out. */
  lemma PruneAccounting(c: State, ownerUUID: string, stale: seq<Entry>, api: nat -> Calls)
    ensures var fs := Fates(c, ownerUUID, stale, api);
            && |stale| == Tally(fs, {Deleted}) + Tally(fs, SKIPPED) + Tally(fs, GONE) + |Errors(fs)|
            && |Removed(c, ownerUUID, stale, api)| == Tally(fs, {Deleted, Vanished})
  {
    FatesPartition(Fates(c, ownerUUID, stale, api));
    RemovedCount(c, ownerUUID, stale, api);
  }

  /** The cluster loses exactly the identities of the entries whose delete went through. */
  lemma {:induction false} PruneLoses(c: State, ownerUUID: string, stale: seq<Entry>, api: nat -> Calls, id: Ident)
    ensures id in Removed(c, ownerUUID, stale, api) <==>
            exists i :: 0 <= i < |stale| && Id(stale[i]) == id && Removes(Fates(c, ownerUUID, stale, api)[i])
  {
    hide Pruned, Removed, FateOf;
    if stale == [] {
      NothingRemoved(c, ownerUUID, api);
    } else {
      var n := |stale| - 1;
      PruneLoses(c, ownerUUID, stale[..n], api, id);
      PruneShape(c, ownerUUID, stale[..n], api);
      RemovedStep(c, ownerUUID, stale, api);
      var fs, gs := Fates(c, ownerUUID, stale, api), Fates(c, ownerUUID, stale[..n], api);
      assert forall i :: 0 <= i < n ==> stale[..n][i] == stale[i] && gs[i] == fs[i];
      if id in Removed(c, ownerUUID, stale[..n], api) {
        var i :| 0 <= i < n && Id(stale[..n][i]) == id && Removes(gs[i]);
        assert Id(stale[i]) == id && Removes(fs[i]);
      }
    }
  }

  lemma NothingRemoved(c: State, ownerUUID: string, api: nat -> Calls)
    ensures Removed(c, ownerUUID, [], api) == {}
  {
  }

  ghost predicate FaultFree(api: nat -> Calls) {
    forall i: nat :: api(i).getFault.None? && !api(i).delete.DeleteFault?
  }

  lemma {:induction false} FaultFreePrune(c: State, ownerUUID: string, stale: seq<Entry>, api: nat -> Calls)
    requires FaultFree(api)
    ensures Errors(Fates(c, ownerUUID, stale, api)) == []
  {
    if stale != [] {
      var n := |stale| - 1;
      FaultFreePrune(c, ownerUUID, stale[..n], api);
      assert Fates(c, ownerUUID, stale, api)[..n] == Fates(c, ownerUUID, stale[..n], api);
    }
  }

  /** The guard: managed by an OPM tool, and not stamped with another release's UUID. */
  ghost predicate MayGo(o: Object, ownerUUID: string) {
    && Label(o, "app.kubernetes.io/managed-by") in {"opm-cli", "opm-controller", "open-platform-model"}
    && (ownerUUID != "" && Label(o, "module-release.opmodel.dev/uuid") != "" ==>
          Label(o, "module-release.opmodel.dev/uuid") == ownerUUID)
  }

  lemma GuardExactly(o: Object, ownerUUID: string)
    ensures Owned(o, ownerUUID) <==> MayGo(o, ownerUUID)
  {
    hide Label;
  }

  /** What becomes of entry `i`, exactly, by the object that is live when its turn comes: kinds that are
      excluded and live objects the guard keeps are skipped; a failed Get, and a failed Delete of an object
      that may go, is an error; an object that may go is deleted, or vanished before the Delete. */
  lemma {:induction false} FateExactly(c: State, ownerUUID: string, stale: seq<Entry>, api: nat -> Calls, i: nat)
    requires i < |stale|
    ensures var f, x, call := Fates(c, ownerUUID, stale, api)[i], stale[i], api(i);
            var live := Get(Pruned(c, ownerUUID, stale[..i], api), Id(x));
            var excluded := x.kind == "Namespace" || x.kind == "CustomResourceDefinition";
            var read := !excluded && call.getFault.None?;
            && (f in SKIPPED <==> excluded || (read && live.Some? && !MayGo(live.value, ownerUUID)))
            && (f == AlreadyGone <==> read && live.None?)
            && (f == Deleted <==> read && live.Some? && MayGo(live.value, ownerUUID) && call.delete.DeleteOk?)
            && (f == Vanished <==> read && live.Some? && MayGo(live.value, ownerUUID) && call.delete.DeleteNotFound?)
            && (f.Failed? <==> !excluded && (call.getFault.Some? ||
                               (live.Some? && MayGo(live.value, ownerUUID) && call.delete.DeleteFault?)))
            && (f.Failed? ==> f.fault == if call.getFault.Some? then call.getFault.value else call.delete.fault)
  {
    hide Pruned, Label, MayGo;
    var n := |stale| - 1;
    var live := Get(Pruned(c, ownerUUID, stale[..i], api), Id(stale[i]));
    if live.Some? {
      GuardExactly(live.value, ownerUUID);
    }
    if i < n {
      FateExactly(c, ownerUUID, stale[..n], api, i);
      assert stale[..n][..i] == stale[..i];
      assert Fates(c, ownerUUID, stale, api)[i] == Fates(c, ownerUUID, stale[..n], api)[i];
    }
  }

  // Order

  ghost predicate DistinctIds(es: seq<Entry>) {
    forall i, j :: 0 <= i < j < |es| ==> Id(es[i]) != Id(es[j])
  }

  /** With distinct identities every entry meets the fate it would meet on its own. */
  lemma {:induction false} FatesIndependent(c: State, ownerUUID: string, stale: seq<Entry>, api: nat -> Calls)
    requires DistinctIds(stale)
    ensures forall i :: 0 <= i < |stale| ==>
              Fates(c, ownerUUID, stale, api)[i] == FateOf(c, ownerUUID, stale[i], api(i))
  {
    if stale != [] {
      var n := |stale| - 1;
      var rest, e := stale[..n], stale[n];
      FatesIndependent(c, ownerUUID, rest, api);
      PruneShape(c, ownerUUID, rest, api);
      assert Id(e) !in Removed(c, ownerUUID, rest, api) by {
        PruneLoses(c, ownerUUID, rest, api, Id(e));
      }
    }
  }

  /** Entries paired with the fate each meets. */
  ghost function Verdicts(c: State, ownerUUID: string, stale: seq<Entry>, api: nat -> Calls): seq<(Entry, Fate)> {
    var fs := Fates(c, ownerUUID, stale, api);
    seq(|stale|, i requires 0 <= i < |stale| => (stale[i], fs[i]))
  }

  ghost predicate PerIdentity(stale: seq<Entry>, api: nat -> Calls, answer: Ident -> Calls) {
    forall i :: 0 <= i < |stale| ==> api(i) == answer(Id(stale[i]))
  }

  /** When the API answers per object, a stale list of distinct identities can be pruned in
      any order: the same cluster, the same fate for every entry. */
  lemma PruneOrderFree(c: State, ownerUUID: string, a: seq<Entry>, b: seq<Entry>,
                       apiA: nat -> Calls, apiB: nat -> Calls, answer: Ident -> Calls)
    requires DistinctIds(a) && DistinctIds(b) && multiset(a) == multiset(b)
    requires PerIdentity(a, apiA, answer) && PerIdentity(b, apiB, answer)
    ensures Pruned(c, ownerUUID, a, apiA) == Pruned(c, ownerUUID, b, apiB)
    ensures multiset(Verdicts(c, ownerUUID, a, apiA)) == multiset(Verdicts(c, ownerUUID, b, apiB))
  {
    FatesIndependent(c, ownerUUID, a, apiA);
    FatesIndependent(c, ownerUUID, b, apiB);
    var f := (e: Entry) => (e, FateOf(c, ownerUUID, e, answer(Id(e))));
    assert Verdicts(c, ownerUUID, a, apiA) == Mapped(a, f);
    assert Verdicts(c, ownerUUID, b, apiB) == Mapped(b, f);
    MappedMultiset(a, b, f);
    PruneShape(c, ownerUUID, a, apiA);
    PruneShape(c, ownerUUID, b, apiB);
    forall id ensures id in Removed(c, ownerUUID, a, apiA) <==> id in Removed(c, ownerUUID, b, apiB) {
      PruneLoses(c, ownerUUID, a, apiA, id);
      PruneLoses(c, ownerUUID, b, apiB, id);
      SameMembers(a, b);
    }
    assert Removed(c, ownerUUID, a, apiA) == Removed(c, ownerUUID, b, apiB);
  }

  lemma SameMembers(a: seq<Entry>, b: seq<Entry>)
    requires multiset(a) == multiset(b)
    ensures forall i :: 0 <= i < |a| ==> exists j :: 0 <= j < |b| && b[j] == a[i]
    ensures forall j :: 0 <= j < |b| ==> exists i :: 0 <= i < |a| && a[i] == b[j]
  {
    forall i | 0 <= i < |a| ensures exists j :: 0 <= j < |b| && b[j] == a[i] {
      assert a[i] in multiset(b);
    }
    forall j | 0 <= j < |b| ensures exists i :: 0 <= i < |a| && a[i] == b[j] {
      assert b[j] in multiset(a);
    }
  }

  function Mapped<X, Y>(s: seq<X>, f: X -> Y): (r: seq<Y>)
    ensures |r| == |s| && forall i :: 0 <= i < |s| ==> r[i] == f(s[i])
  {
    seq(|s|, i requires 0 <= i < |s| => f(s[i]))
  }

  lemma {:induction false} MappedMultiset<X, Y>(a: seq<X>, b: seq<X>, f: X -> Y)
    requires multiset(a) == multiset(b)
    ensures multiset(Mapped(a, f)) == multiset(Mapped(b, f))
  {
    SameLength(a, b);
    if a != [] {
      var n := |a| - 1;
      var j := IndexIn(a, n, b);
      assert multiset(Without(a, n)) == multiset(Without(b, j)) by {
        WithoutMultiset(a, n);
        WithoutMultiset(b, j);
      }
      MappedMultiset(Without(a, n), Without(b, j), f);
      MappedWithout(a, n, f);
      MappedWithout(b, j, f);
    }
  }

  lemma SameLength<X>(a: seq<X>, b: seq<X>)
    requires multiset(a) == multiset(b)
    ensures |a| == |b|
  {
    assert |multiset(a)| == |multiset(b)|;
  }

  lemma IndexIn<X>(a: seq<X>, i: nat, b: seq<X>) returns (j: nat)
    requires i < |a| && multiset(a) == multiset(b)
    ensures j < |b| && b[j] == a[i]
  {
    assert a[i] in multiset(b);
    j :| 0 <= j < |b| && b[j] == a[i];
  }

  lemma MappedWithout<X, Y>(s: seq<X>, i: nat, f: X -> Y)
    requires i < |s|
    ensures multiset(Mapped(s, f)) == multiset(Mapped(Without(s, i), f)) + multiset{f(s[i])}
  {
    WithoutMultiset(Mapped(s, f), i);
    assert Without(Mapped(s, f), i) == Mapped(Without(s, i), f);
  }

  function Without<X>(s: seq<X>, i: nat): seq<X>
    requires i < |s|
  {
    s[..i] + s[i + 1..]
  }

  lemma WithoutMultiset<X>(s: seq<X>, i: nat)
    requires i < |s|
    ensures multiset(s) == multiset(Without(s, i)) + multiset{s[i]}
    ensures multiset(Without(s, i)) == multiset(s) - multiset{s[i]}
  {
    assert s == s[..i] + [s[i]] + s[i + 1..];
  }
}
