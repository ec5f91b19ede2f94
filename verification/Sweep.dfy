/** Apply, then prune: what a successful pass makes of the cluster, and why passes that stopped halfway
    do not matter. Shared by both reconcile loops; `owner` is "" for a Release. */
module Sweep {
  import opened Json
  import opened Digests
  import opened Inventory
  import opened Cluster
  import opened Prune

  ghost predicate RendersId(ms: seq<Value>, id: Ident) {
    LastFor(ms, EVERY, id).Some?
  }

  lemma {:induction false} IdsMember(es: seq<Entry>, id: Ident)
    ensures id in Ids(es) <==> exists x :: x in es && Id(x) == id
  {
    if es != [] {
      var n := |es| - 1;
      IdsMember(es[..n], id);
      assert es == es[..n] + [es[n]];
    }
  }

  /** A stale identity is not rendered. */
  lemma StaleNotRendered(previous: seq<Entry>, rs: seq<Resource>, id: Ident)
    requires id in Ids(StaleSet(previous, EntriesOf(rs)))
    ensures !RendersId(Manifests(rs), id)
  {
    var stale := StaleSet(previous, EntriesOf(rs));
    IdsMember(stale, id);
    var x :| x in stale && Id(x) == id;
    StaleExactly(previous, EntriesOf(rs), x);
    forall i | 0 <= i < |rs| ensures IdOf(Manifests(rs)[i]) != id {
      assert EntriesOf(rs)[i] in EntriesOf(rs);
    }
    LastForNone(Manifests(rs), EVERY, id);
  }

  lemma RenderedIds(rs: seq<Resource>, id: Ident)
    ensures id in Ids(EntriesOf(rs)) <==> RendersId(Manifests(rs), id)
  {
    IdsMember(EntriesOf(rs), id);
    if id in Ids(EntriesOf(rs)) {
      var i :| 0 <= i < |rs| && Id(EntriesOf(rs)[i]) == id;
      LastForMember(Manifests(rs), i);
    } else {
      forall i | 0 <= i < |rs| ensures IdOf(Manifests(rs)[i]) != id {
        assert EntriesOf(rs)[i] in EntriesOf(rs);
      }
      LastForNone(Manifests(rs), EVERY, id);
    }
  }

  // A full pass

  /** Why a previous entry that is not rendered any more may still be there. */
  ghost predicate Spared(o: Object, ownerUUID: string, x: Entry) {
    !IsSafeToDelete(x) || !IsOPMManagedBy(Label(o, LABEL_MANAGED_BY)) ||
    (Label(o, LABEL_RELEASE_UUID) != "" && ownerUUID != "" && Label(o, LABEL_RELEASE_UUID) != ownerUUID)
  }

  /** What a pass prunes: the stale entries, or nothing with pruning off. */
  function Sweepings(prune: bool, previous: seq<Entry>, rs: seq<Resource>): seq<Entry> {
    if prune then StaleSet(previous, EntriesOf(rs)) else []
  }

  /** `c'` is `c` after a full apply and an error-free prune. */
  ghost predicate Done(prune: bool, previous: seq<Entry>, owner: string, rs: seq<Resource>, api: nat -> Calls,
                       c: State, c': State) {
    var applied, stale := Apply(c, Manifests(rs), EVERY), Sweepings(prune, previous, rs);
    && c' == Pruned(applied, owner, stale, api)
    && Errors(Fates(applied, owner, stale, api)) == []
  }

  /** Every rendered identity is live and carries the last manifest rendered for it; with pruning on,
      every previous entry is rendered again, or gone, or untouched for a stated reason; every
      other object is untouched. */
  ghost predicate Swept(prune: bool, previous: seq<Entry>, owner: string, rs: seq<Resource>, c: State, c': State) {
    var ms := Manifests(rs);
    && (forall i :: 0 <= i < |ms| ==>
          IdOf(ms[i]) in c' && Some(c'[IdOf(ms[i])].owned) == LastFor(ms, EVERY, IdOf(ms[i])))
    && (prune ==> forall x :: x in previous ==>
          || RendersId(ms, Id(x))
          || Id(x) !in c'
          || (Get(c', Id(x)) == Get(c, Id(x)) && Spared(c'[Id(x)], owner, x)))
    && (forall id :: !RendersId(ms, id) && (!prune || id !in Ids(previous)) ==> Get(c', id) == Get(c, id))
  }

  /** The object of one identity after a full pass. */
  lemma FateOfId(prune: bool, previous: seq<Entry>, owner: string, rs: seq<Resource>, api: nat -> Calls,
                 c: State, c': State, id: Ident)
    requires Done(prune, previous, owner, rs, api, c, c')
    ensures !RendersId(Manifests(rs), id) || id !in Ids(Sweepings(prune, previous, rs))
    ensures var o := After(Get(c, id), Manifests(rs), EVERY, id);
            Get(c', id) == if id in Ids(Sweepings(prune, previous, rs)) && DeletableId(c, owner, id) then None else o
  {
    hide Apply, Pruned, Fates, Errors, StaleSet;
    var ms, stale := Manifests(rs), Sweepings(prune, previous, rs);
    var applied := Apply(c, ms, EVERY);
    ApplyPointwise(c, ms, EVERY, id);
    PruneShape(applied, owner, stale, api);
    if id in Ids(stale) {
      StaleNotRendered(previous, rs, id);
      AfterOwned(Get(c, id), ms, EVERY, id);
      assert Get(applied, id) == Get(c, id);
    }
  }

  lemma RenderedIsLive(prune: bool, previous: seq<Entry>, owner: string, rs: seq<Resource>, api: nat -> Calls,
                       c: State, c': State, i: nat)
    requires Done(prune, previous, owner, rs, api, c, c') && i < |rs|
    ensures var id := IdOf(Manifests(rs)[i]);
            id in c' && Some(c'[id].owned) == LastFor(Manifests(rs), EVERY, id)
  {
    hide Done;
    var ms := Manifests(rs);
    LastForMember(ms, i);
    FateOfId(prune, previous, owner, rs, api, c, c', IdOf(ms[i]));
    AfterOwned(Get(c, IdOf(ms[i])), ms, EVERY, IdOf(ms[i]));
  }

  lemma NotRenderedIsStale(previous: seq<Entry>, rs: seq<Resource>, x: Entry)
    requires x in previous && !RendersId(Manifests(rs), Id(x))
    ensures Id(x) in Ids(StaleSet(previous, EntriesOf(rs)))
  {
    StaleExactly(previous, EntriesOf(rs), x);
    IdsMember(StaleSet(previous, EntriesOf(rs)), Id(x));
    if Kept(x, EntriesOf(rs)) {
      var y :| y in EntriesOf(rs) && K8sIdentityEqual(x, y);
      var i :| 0 <= i < |rs| && EntriesOf(rs)[i] == y;
      LastForMember(Manifests(rs), i);
    }
  }

  lemma PreviousIsSettled(previous: seq<Entry>, owner: string, rs: seq<Resource>, api: nat -> Calls,
                          c: State, c': State, x: Entry)
    requires Done(true, previous, owner, rs, api, c, c') && x in previous
    ensures RendersId(Manifests(rs), Id(x)) || Id(x) !in c' ||
            (Get(c', Id(x)) == Get(c, Id(x)) && Spared(c'[Id(x)], owner, x))
  {
    hide Done, StaleSet;
    FateOfId(true, previous, owner, rs, api, c, c', Id(x));
    if !RendersId(Manifests(rs), Id(x)) {
      AfterOwned(Get(c, Id(x)), Manifests(rs), EVERY, Id(x));
      NotRenderedIsStale(previous, rs, x);
    }
  }

  lemma StaleIdsPrevious(previous: seq<Entry>, rs: seq<Resource>, id: Ident)
    ensures id in Ids(StaleSet(previous, EntriesOf(rs))) ==> id in Ids(previous)
  {
    var stale := StaleSet(previous, EntriesOf(rs));
    IdsMember(stale, id);
    IdsMember(previous, id);
    if id in Ids(stale) {
      var x :| x in stale && Id(x) == id;
      StaleExactly(previous, EntriesOf(rs), x);
    }
  }

  lemma OtherIsUntouched(prune: bool, previous: seq<Entry>, owner: string, rs: seq<Resource>, api: nat -> Calls,
                         c: State, c': State, id: Ident)
    requires Done(prune, previous, owner, rs, api, c, c')
    requires !RendersId(Manifests(rs), id) && (!prune || id !in Ids(previous))
    ensures Get(c', id) == Get(c, id)
  {
    hide Done, StaleSet;
    FateOfId(prune, previous, owner, rs, api, c, c', id);
    AfterOwned(Get(c, id), Manifests(rs), EVERY, id);
    StaleIdsPrevious(previous, rs, id);
  }

  lemma DoneSettles(prune: bool, previous: seq<Entry>, owner: string, rs: seq<Resource>, api: nat -> Calls,
                    c: State, c': State)
    requires Done(prune, previous, owner, rs, api, c, c')
    ensures Swept(prune, previous, owner, rs, c, c')
  {
    hide Done, LastFor, Spared;
    var ms := Manifests(rs);
    forall i | 0 <= i < |ms|
      ensures IdOf(ms[i]) in c' && Some(c'[IdOf(ms[i])].owned) == LastFor(ms, EVERY, IdOf(ms[i]))
    {
      RenderedIsLive(prune, previous, owner, rs, api, c, c', i);
    }
    if prune {
      forall x | x in previous
        ensures RendersId(ms, Id(x)) || Id(x) !in c' || (Get(c', Id(x)) == Get(c, Id(x)) && Spared(c'[Id(x)], owner, x))
      {
        PreviousIsSettled(previous, owner, rs, api, c, c', x);
      }
    }
    forall id | !RendersId(ms, id) && (!prune || id !in Ids(previous)) ensures Get(c', id) == Get(c, id) {
      OtherIsUntouched(prune, previous, owner, rs, api, c, c', id);
    }
  }

  // Passes that stopped halfway

  /** `c` is `c0` some failed attempts later: rendered identities merge to the same objects,
      deletable stale ones may be gone, nothing else differs. */
  ghost predicate Midway(c0: State, c: State, ms: seq<Value>, doomed: set<Ident>) {
    forall id :: MidwayAt(c0, c, ms, doomed, id)
  }

  ghost predicate MidwayAt(c0: State, c: State, ms: seq<Value>, doomed: set<Ident>, id: Ident) {
    if RendersId(ms, id) then After(Get(c, id), ms, EVERY, id) == After(Get(c0, id), ms, EVERY, id)
    else Get(c, id) == Get(c0, id) || (id in doomed && Get(c, id) == None)
  }

  lemma MidwayApply(c0: State, c: State, ms: seq<Value>, doomed: set<Ident>, done: nat -> bool)
    requires Midway(c0, c, ms, doomed)
    ensures Midway(c0, Apply(c, ms, done), ms, doomed)
  {
    forall id ensures MidwayAt(c0, Apply(c, ms, done), ms, doomed, id) {
      assert MidwayAt(c0, c, ms, doomed, id);
      ApplyPointwise(c, ms, done, id);
      ApplyAbsorbs(Get(c, id), ms, done, id);
      EveryCovers(ms, done, id, []);
      AfterOwned(Get(c, id), ms, done, id);
    }
  }

  lemma MidwayPrune(c0: State, c: State, ms: seq<Value>, owner: string, stale: seq<Entry>, api: nat -> Calls)
    requires Midway(c0, c, ms, Deletable(c0, owner, stale))
    requires forall id :: id in Ids(stale) ==> !RendersId(ms, id)
    ensures Midway(c0, Pruned(c, owner, stale, api), ms, Deletable(c0, owner, stale))
  {
    hide Pruned, Owned;
    PruneShape(c, owner, stale, api);
    var doomed := Deletable(c0, owner, stale);
    forall id ensures MidwayAt(c0, Pruned(c, owner, stale, api), ms, doomed, id) {
      assert MidwayAt(c0, c, ms, doomed, id);
      if id in Removed(c, owner, stale, api) {
        assert id in Deletable(c, owner, stale);
      }
    }
  }

  /** However far the failed attempts got, one full apply and one error-free prune from there
      end where they would have ended from the start. */
  lemma MidwayCloses(c0: State, c: State, ms: seq<Value>, owner: string, stale: seq<Entry>,
                     api: nat -> Calls, api0: nat -> Calls)
    requires Midway(c0, c, ms, Deletable(c0, owner, stale))
    requires forall id :: id in Ids(stale) ==> !RendersId(ms, id)
    requires Errors(Fates(Apply(c, ms, EVERY), owner, stale, api)) == []
    requires Errors(Fates(Apply(c0, ms, EVERY), owner, stale, api0)) == []
    ensures Pruned(Apply(c, ms, EVERY), owner, stale, api) == Pruned(Apply(c0, ms, EVERY), owner, stale, api0)
  {
    hide Pruned, Owned, Apply, Fates, Errors;
    var a, a0 := Apply(c, ms, EVERY), Apply(c0, ms, EVERY);
    PruneShape(a, owner, stale, api);
    PruneShape(a0, owner, stale, api0);
    var d, d0 := Pruned(a, owner, stale, api), Pruned(a0, owner, stale, api0);
    forall id ensures Get(d, id) == Get(d0, id) {
      assert MidwayAt(c0, c, ms, Deletable(c0, owner, stale), id);
      ApplyPointwise(c, ms, EVERY, id);
      ApplyPointwise(c0, ms, EVERY, id);
      AfterOwned(Get(c, id), ms, EVERY, id);
      AfterOwned(Get(c0, id), ms, EVERY, id);
    }
    SameLookups(d, d0);
  }

  lemma SameLookups(a: State, b: State)
    requires forall id :: Get(a, id) == Get(b, id)
    ensures a == b
  {
    assert forall id :: (id in a <==> Get(a, id).Some?) && (id in b <==> Get(b, id).Some?);
    assert forall id :: id in a ==> Get(a, id) == Some(a[id]) && Get(b, id) == Some(b[id]);
  }

  lemma MidwayStart(c: State, ms: seq<Value>, doomed: set<Ident>)
    ensures Midway(c, c, ms, doomed)
  {
  }

  lemma SweepingsNeverRendered(prune: bool, previous: seq<Entry>, rs: seq<Resource>)
    ensures forall id :: id in Ids(Sweepings(prune, previous, rs)) ==> !RendersId(Manifests(rs), id)
  {
    forall id | id in Ids(Sweepings(prune, previous, rs)) ensures !RendersId(Manifests(rs), id) {
      StaleNotRendered(previous, rs, id);
    }
  }

  /** What a full pass from `c` would take away. */
  ghost function Doomed(prune: bool, previous: seq<Entry>, owner: string, rs: seq<Resource>, c: State): set<Ident> {
    Deletable(c, owner, Sweepings(prune, previous, rs))
  }

  /** Full passes from `c0` and from anywhere halfway end with the same cluster. */
  lemma ClustersMeet(prune: bool, previous: seq<Entry>, owner: string, rs: seq<Resource>, c0: State, c: State,
                     api: nat -> Calls, api0: nat -> Calls, d: State, d0: State)
    requires Midway(c0, c, Manifests(rs), Doomed(prune, previous, owner, rs, c0))
    requires Done(prune, previous, owner, rs, api, c, d) && Done(prune, previous, owner, rs, api0, c0, d0)
    ensures d == d0
  {
    hide Apply, Pruned, Fates, Errors, StaleSet, Deletable;
    SweepingsNeverRendered(prune, previous, rs);
    MidwayCloses(c0, c, Manifests(rs), owner, Sweepings(prune, previous, rs), api, api0);
  }
}
