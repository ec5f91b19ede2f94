/** The cluster side of a run of either loop: a journal of passes over inventory and cluster. What the
    inventory covers and what a manifest becomes is proved here once, for any journal. */
module Journal {
  import opened Json
  import opened Digests
  import opened Inventory
  import opened Cluster
  import opened Prune
  import opened Status
  import opened Reconcile
  import opened Sweep
  import DeletionRuns

  datatype Snap = Snap(inventory: seq<Entry>, cluster: State)

  /** What a happening does: nothing; an apply that stops short; a full apply and a prune, with or without
      its success being stored; the prune of a deletion; an orphan exit; a change by someone else. */
  datatype Pass =
    | Idle
    | Halted(ms: seq<Value>, done: nat -> bool)
    | Full(rs: seq<Resource>, prune: bool, owner: string, api: nat -> Calls, stored: bool)
    | Cleanup(owner: string, api: nat -> Calls)
    | Orphaning
    | Outside

  datatype Line = Line(before: Snap, pass: Pass, after: Snap)

  ghost predicate Moves(l: Line) {
    var a, b := l.before, l.after;
    match l.pass
    case Idle => b == a
    case Halted(ms, done) => b == a.(cluster := Apply(a.cluster, ms, done))
    case Full(rs, prune, owner, api, stored) =>
      var applied, stale := Apply(a.cluster, Manifests(rs), EVERY), Sweepings(prune, a.inventory, rs);
      && b.cluster == Pruned(applied, owner, stale, api)
      && b.inventory == (if stored then EntriesOf(rs) else a.inventory)
      && (stored ==> Errors(Fates(applied, owner, stale, api)) == [])
    case Cleanup(owner, api) => b == a.(cluster := Pruned(a.cluster, owner, a.inventory, api))
    case Orphaning => b == a.(inventory := [])
    case Outside => b.inventory == a.inventory
  }

  function Last(start: Snap, js: seq<Line>): Snap {
    if js == [] then start else js[|js| - 1].after
  }

  /** Every line starts where the one before it ended. */
  ghost predicate Chain(start: Snap, js: seq<Line>) {
    js == [] || (
      var n := |js| - 1;
      Chain(start, js[..n]) && js[n].before == Last(start, js[..n]) && Moves(js[n]))
  }

  // What becomes of a manifest

  ghost function ManifestAt(c: State, id: Ident): Option<Value> {
    if id in c then Some(c[id].owned) else None
  }

  /** A line leaves the last manifest it applied, nothing where it removed the object, and the manifest
      that was there otherwise. */
  ghost function Effect(l: Line, id: Ident, m: Option<Value>): Option<Value> {
    match l.pass
    case Idle => m
    case Orphaning => m
    case Halted(ms, done) => if LastFor(ms, done, id).Some? then LastFor(ms, done, id) else m
    case Full(rs, prune, owner, api, _) =>
      if LastFor(Manifests(rs), EVERY, id).Some? then LastFor(Manifests(rs), EVERY, id)
      else if id in Removed(Apply(l.before.cluster, Manifests(rs), EVERY), owner,
                            Sweepings(prune, l.before.inventory, rs), api) then None
      else m
    case Cleanup(owner, api) => if id in Removed(l.before.cluster, owner, l.before.inventory, api) then None else m
    case Outside => ManifestAt(l.after.cluster, id)
  }

  ghost function Folded(js: seq<Line>, id: Ident, m: Option<Value>): Option<Value> {
    if js == [] then m else Effect(js[|js| - 1], id, Folded(js[..|js| - 1], id, m))
  }

  lemma ApplyEffect(c: State, ms: seq<Value>, done: nat -> bool, id: Ident)
    ensures ManifestAt(Apply(c, ms, done), id) ==
            if LastFor(ms, done, id).Some? then LastFor(ms, done, id) else ManifestAt(c, id)
  {
    ApplyPointwise(c, ms, done, id);
    AfterOwned(Get(c, id), ms, done, id);
  }

  lemma PruneEffect(c: State, owner: string, es: seq<Entry>, api: nat -> Calls, id: Ident)
    ensures ManifestAt(Pruned(c, owner, es, api), id) ==
            if id in Removed(c, owner, es, api) then None else ManifestAt(c, id)
    ensures id in Removed(c, owner, es, api) ==> id in Ids(es)
  {
    hide Pruned;
    PruneShape(c, owner, es, api);
  }

  lemma LineEffect(l: Line, id: Ident)
    requires Moves(l)
    ensures ManifestAt(l.after.cluster, id) == Effect(l, id, ManifestAt(l.before.cluster, id))
  {
    hide Apply, Pruned, LastFor, Removed, Sweepings, Errors, Fates;
    match l.pass {
      case Halted(ms, done) => ApplyEffect(l.before.cluster, ms, done, id);
      case Full(rs, prune, owner, api, _) =>
        var stale := Sweepings(prune, l.before.inventory, rs);
        ApplyEffect(l.before.cluster, Manifests(rs), EVERY, id);
        PruneEffect(Apply(l.before.cluster, Manifests(rs), EVERY), owner, stale, api, id);
        SweepingsNeverRendered(prune, l.before.inventory, rs);
      case Cleanup(owner, api) => PruneEffect(l.before.cluster, owner, l.before.inventory, api, id);
      case _ =>
    }
  }

  /** Over any journal, the manifest at an identity is what the lines fold to. */
  lemma {:induction false} ManifestFolds(start: Snap, js: seq<Line>, id: Ident)
    requires Chain(start, js)
    ensures ManifestAt(Last(start, js).cluster, id) == Folded(js, id, ManifestAt(start.cluster, id))
  {
    if js != [] {
      hide Moves, Effect;
      var n := |js| - 1;
      ManifestFolds(start, js[..n], id);
      LineEffect(js[n], id);
    }
  }

  lemma {:induction false} IdleFolds(js: seq<Line>, id: Ident, m: Option<Value>)
    requires forall i :: 0 <= i < |js| ==> js[i].pass.Idle?
    ensures Folded(js, id, m) == m
  {
    if js != [] {
      IdleFolds(js[..|js| - 1], id, m);
    }
  }

  // What a no-op finds

  /** The identity of manifest `i` is live with the last manifest of `last` for it, which is manifest `i` if
      `ms` has no other for it. */
  ghost predicate LiveAt(c: State, ms: seq<Value>, last: seq<Value>, i: nat)
    requires i < |ms|
  {
    var id := IdOf(ms[i]);
    && id in c && Some(c[id].owned) == LastFor(last, EVERY, id)
    && ((forall j :: 0 <= j < |ms| && IdOf(ms[j]) == id ==> ms[j] == ms[i]) ==> c[id].owned == ms[i])
  }

  ghost predicate AsRendered(c: State, ms: seq<Value>, last: seq<Value>) {
    forall i :: 0 <= i < |ms| ==> LiveAt(c, ms, last, i)
  }

  /** The journal gives every identity of `ms` its last manifest of `last` back. */
  ghost predicate Restores(js: seq<Line>, ms: seq<Value>, last: seq<Value>) {
    forall i :: 0 <= i < |ms| ==>
      Folded(js, IdOf(ms[i]), LastFor(last, EVERY, IdOf(ms[i]))) == LastFor(last, EVERY, IdOf(ms[i]))
  }

  lemma {:induction false} LastForIsMember(ms: seq<Value>, done: nat -> bool, id: Ident)
    ensures var m := LastFor(ms, done, id); m.Some? ==> m.value in ms && IdOf(m.value) == id
  {
    if ms != [] {
      LastForIsMember(ms[..|ms| - 1], done, id);
    }
  }

  /** For a permutation, carrying the last manifest is all there is to it. */
  lemma LiveExactly(c: State, ms: seq<Value>, last: seq<Value>, i: nat)
    requires multiset(ms) == multiset(last) && i < |ms|
    ensures LiveAt(c, ms, last, i) <==> ManifestAt(c, IdOf(ms[i])) == LastFor(last, EVERY, IdOf(ms[i]))
  {
    hide LastFor;
    var id := IdOf(ms[i]);
    var k := IndexIn(ms, i, last);
    LastForMember(last, k);
    LastForIsMember(last, EVERY, id);
    var l :| 0 <= l < |last| && last[l] == LastFor(last, EVERY, id).value;
    var j := IndexIn(last, l, ms);
  }

  lemma LiveAsRendered(c: State, ms: seq<Value>, last: seq<Value>)
    requires multiset(ms) == multiset(last)
    ensures AsRendered(c, ms, last) <==>
            forall i :: 0 <= i < |ms| ==> ManifestAt(c, IdOf(ms[i])) == LastFor(last, EVERY, IdOf(ms[i]))
  {
    hide LastFor, LiveAt, ManifestAt;
    forall i | 0 <= i < |ms|
      ensures LiveAt(c, ms, last, i) <==> ManifestAt(c, IdOf(ms[i])) == LastFor(last, EVERY, IdOf(ms[i]))
    {
      LiveExactly(c, ms, last, i);
    }
  }

  /** A full pass that rendered `last`, then any journal: what was rendered is live with its manifests
      exactly when the journal folds each of them back to itself. */
  lemma TruthFolds(prune: bool, previous: seq<Entry>, owner: string, last: seq<Resource>, c: State, start: Snap,
                   js: seq<Line>, rs: seq<Resource>)
    requires Swept(prune, previous, owner, last, c, start.cluster) && Chain(start, js)
    requires multiset(Manifests(last)) == multiset(Manifests(rs))
    ensures AsRendered(Last(start, js).cluster, Manifests(rs), Manifests(last)) <==>
            Restores(js, Manifests(rs), Manifests(last))
  {
    hide LastFor, Spared, Chain, Folded, AsRendered;
    var ms, old_ := Manifests(rs), Manifests(last);
    LiveAsRendered(Last(start, js).cluster, ms, old_);
    forall i | 0 <= i < |ms|
      ensures ManifestAt(Last(start, js).cluster, IdOf(ms[i])) ==
              Folded(js, IdOf(ms[i]), LastFor(old_, EVERY, IdOf(ms[i])))
    {
      var j := IndexIn(ms, i, old_);
      ManifestFolds(start, js, IdOf(ms[i]));
    }
  }

  lemma ManifestsFollow(a: seq<Resource>, b: seq<Resource>)
    requires multiset(a) == multiset(b)
    ensures multiset(Manifests(a)) == multiset(Manifests(b))
  {
    var f := (r: Resource) => r.manifest;
    MappedMultiset(a, b, f);
    assert Manifests(a) == Mapped(a, f) && Manifests(b) == Mapped(b, f);
  }

  // What the inventory covers

  /** Identities by what became of them: `applied` ever; `pending` applied since the last stored success;
      dropped from the inventory while pruning was off (`unpruned`), while the guard spared the object
      (`spared`), or by an orphan exit (`orphaned`); `leaked` when a stored success came after the
      pass that applied them, without rendering them and without their being recorded before. */
  datatype Trace = Trace(applied: set<Ident>, pending: set<Ident>, unpruned: set<Ident>, spared: set<Ident>,
                         leaked: set<Ident>, orphaned: set<Ident>)

  const NO_TRACE := Trace({}, {}, {}, {}, {}, {})

  ghost function RenderedSet(rs: seq<Resource>): set<Ident> {
    Ids(EntriesOf(rs))
  }

  /** The identities a line applies. */
  ghost function Touched(pass: Pass): set<Ident> {
    match pass
    case Halted(ms, done) => set i | 0 <= i < |ms| && LastFor(ms, done, IdOf(ms[i])).Some? :: IdOf(ms[i])
    case Full(rs, _, _, _, _) => RenderedSet(rs)
    case _ => {}
  }

  /** Live, and kept by the prune guard: a Namespace, a CRD, not OPM-managed, or of another UUID. */
  ghost predicate Guarded(c: State, owner: string, id: Ident) {
    id in c && !DeletableId(c, owner, id)
  }

  /** A stored success records what it rendered and drops the rest. */
  ghost function AfterSuccess(t: Trace, a: Snap, rs: seq<Resource>, prune: bool, owner: string): Trace {
    var previous, now := Ids(a.inventory), RenderedSet(rs);
    var dropped := previous - now;
    Trace(t.applied + now, {},
          t.unpruned + (if prune then {} else dropped) - now,
          t.spared + (if prune then set id | id in dropped && Guarded(a.cluster, owner, id) else {}) - now,
          t.leaked + (t.pending - previous) - now,
          t.orphaned - now)
  }

  ghost function Follow(t: Trace, l: Line): Trace {
    if l.pass.Full? && l.pass.stored then AfterSuccess(t, l.before, l.pass.rs, l.pass.prune, l.pass.owner)
    else if l.pass.Orphaning? then t.(orphaned := t.orphaned + Ids(l.before.inventory))
    else t.(applied := t.applied + Touched(l.pass), pending := t.pending + Touched(l.pass))
  }

  ghost function Traced(js: seq<Line>): Trace {
    if js == [] then NO_TRACE else Follow(Traced(js[..|js| - 1]), js[|js| - 1])
  }

  ghost function Exceptions(t: Trace): set<Ident> {
    t.unpruned + t.spared + t.leaked + t.orphaned
  }

  /** Every live object ever applied is recorded, pending, or an exception. */
  ghost predicate Accounted(s: Snap, t: Trace) {
    forall id :: id in t.applied && id in s.cluster ==> id in Ids(s.inventory) + t.pending + Exceptions(t)
  }

  lemma HaltedTouches(c: State, ms: seq<Value>, done: nat -> bool, id: Ident)
    ensures id in Apply(c, ms, done) && id !in c ==> id in Touched(Halted(ms, done))
  {
    hide Apply;
    ApplyPointwise(c, ms, done, id);
    AfterOwned(Get(c, id), ms, done, id);
    LastForIsMember(ms, done, id);
  }

  lemma FullTouches(c: State, rs: seq<Resource>, owner: string, stale: seq<Entry>, api: nat -> Calls, id: Ident)
    ensures id in Pruned(Apply(c, Manifests(rs), EVERY), owner, stale, api) && id !in c ==> id in RenderedSet(rs)
  {
    hide Apply, Pruned, Ids, LastFor;
    PruneShape(Apply(c, Manifests(rs), EVERY), owner, stale, api);
    ApplyPointwise(c, Manifests(rs), EVERY, id);
    AfterOwned(Get(c, id), Manifests(rs), EVERY, id);
    RenderedIds(rs, id);
  }

  lemma DroppedIsStale(previous: seq<Entry>, rs: seq<Resource>, id: Ident)
    ensures id in Ids(previous) && !RendersId(Manifests(rs), id) ==> id in Ids(StaleSet(previous, EntriesOf(rs)))
  {
    IdsMember(previous, id);
    if id in Ids(previous) && !RendersId(Manifests(rs), id) {
      var x :| x in previous && Id(x) == id;
      NotRenderedIsStale(previous, rs, x);
    }
  }

  /** A stored success accounts for every object it finds or makes. */
  lemma SuccessAccounts(l: Line, t: Trace)
    requires Moves(l) && l.pass.Full? && l.pass.stored && Accounted(l.before, t)
    ensures Accounted(l.after, Follow(t, l))
  {
    hide Apply, Pruned, Errors, Fates, Ids, StaleSet, LastFor, DeletableId;
    var a, b, rs, t' := l.before, l.after, l.pass.rs, Follow(t, l);
    forall id | id in t'.applied && id in b.cluster ensures id in Ids(b.inventory) + t'.pending + Exceptions(t') {
      RenderedIds(rs, id);
      if id !in RenderedSet(rs) {
        FateOfId(l.pass.prune, a.inventory, l.pass.owner, rs, l.pass.api, a.cluster, b.cluster, id);
        AfterOwned(Get(a.cluster, id), Manifests(rs), EVERY, id);
        DroppedIsStale(a.inventory, rs, id);
      }
    }
  }

  lemma LineAccounts(l: Line, t: Trace)
    requires Moves(l) && !l.pass.Outside? && Accounted(l.before, t)
    ensures Accounted(l.after, Follow(t, l))
  {
    hide Apply, Pruned, Errors, Fates, Ids, StaleSet, LastFor, AfterSuccess, Touched;
    if l.pass.Full? && l.pass.stored {
      SuccessAccounts(l, t);
    } else {
      var a, b, t' := l.before, l.after, Follow(t, l);
      forall id | id in t'.applied && id in b.cluster ensures id in Ids(b.inventory) + t'.pending + Exceptions(t') {
        match l.pass {
          case Halted(ms, done) => HaltedTouches(a.cluster, ms, done, id);
          case Full(rs, prune, owner, api, _) =>
            FullTouches(a.cluster, rs, owner, Sweepings(prune, a.inventory, rs), api, id);
            assert Touched(l.pass) == RenderedSet(rs) by { FullTouchesAll(l.pass); }
          case Cleanup(owner, api) => PruneShape(a.cluster, owner, a.inventory, api);
          case _ =>
        }
      }
    }
  }

  lemma FullTouchesAll(pass: Pass)
    requires pass.Full?
    ensures Touched(pass) == RenderedSet(pass.rs)
  {
  }

  /** Over any journal without outside changes, every live object ever applied is accounted for. */
  lemma {:induction false} JournalAccounts(start: Snap, js: seq<Line>)
    requires Chain(start, js) && forall i :: 0 <= i < |js| ==> !js[i].pass.Outside?
    ensures Accounted(Last(start, js), Traced(js))
  {
    if js != [] {
      hide Moves, Follow, Accounted;
      var n := |js| - 1;
      JournalAccounts(start, js[..n]);
      LineAccounts(js[n], Traced(js[..n]));
    } else {
      assert Accounted(start, NO_TRACE);
    }
  }

  lemma LineExcepts(l: Line, t: Trace)
    requires Moves(l) && Exceptions(t) !! Ids(l.before.inventory)
    ensures Exceptions(Follow(t, l)) !! Ids(l.after.inventory)
  {
    hide Apply, Pruned, Errors, Fates, StaleSet, LastFor, Touched, Guarded;
    assert l.pass.Orphaning? ==> Ids(l.after.inventory) == {};
  }

  /** Over any journal, the exceptions lie outside the inventory. */
  lemma {:induction false} ExceptionsOutside(start: Snap, js: seq<Line>)
    requires Chain(start, js)
    ensures Exceptions(Traced(js)) !! Ids(Last(start, js).inventory)
  {
    if js != [] {
      hide Moves, Follow, Exceptions;
      var n := |js| - 1;
      ExceptionsOutside(start, js[..n]);
      LineExcepts(js[n], Traced(js[..n]));
    } else {
      assert Exceptions(NO_TRACE) == {};
    }
  }

  /** A live object ever applied is missing from the inventory exactly when it is one of the exceptions, or
      was applied since the last stored success and not recorded before. */
  ghost predicate CoveredExactly(s: Snap, t: Trace) {
    forall id :: id in t.applied && id in s.cluster ==>
      (id !in Ids(s.inventory) <==> id in Exceptions(t) + (t.pending - Ids(s.inventory)))
  }

  lemma JournalCovers(start: Snap, js: seq<Line>)
    requires Chain(start, js) && forall i :: 0 <= i < |js| ==> !js[i].pass.Outside?
    ensures CoveredExactly(Last(start, js), Traced(js))
  {
    hide Chain, Traced, Exceptions, Ids;
    JournalAccounts(start, js);
    ExceptionsOutside(start, js);
  }

  /** Every pass of the journal renders the same identities. */
  ghost predicate Steady(js: seq<Line>, ids: set<Ident>) {
    forall i :: 0 <= i < |js| ==> Touched(js[i].pass) <= ids && (js[i].pass.Full? ==> RenderedSet(js[i].pass.rs) == ids)
  }

  /** As long as the rendered identities do not change, nothing is dropped, spared or leaked. */
  lemma {:induction false} SteadyJournals(start: Snap, js: seq<Line>, ids: set<Ident>)
    requires Chain(start, js) && Steady(js, ids) && Ids(start.inventory) <= ids
    ensures var t := Traced(js);
            && t.unpruned == {} && t.spared == {} && t.leaked == {} && t.pending <= ids
            && Ids(Last(start, js).inventory) <= ids
  {
    hide Apply, Pruned, Errors, Fates, StaleSet, LastFor, Guarded, Touched;
    if js != [] {
      var n := |js| - 1;
      SteadyJournals(start, js[..n], ids);
      assert js[n].pass.Orphaning? ==> Ids(js[n].after.inventory) == {};
    }
  }

  /** What a stored success neither renders nor finds in the inventory stays as it is and is not recorded. */
  lemma SuccessForgets(l: Line, id: Ident)
    requires Moves(l) && l.pass.Full? && l.pass.stored
    requires id !in RenderedSet(l.pass.rs) && id !in Ids(l.before.inventory)
    ensures Get(l.after.cluster, id) == Get(l.before.cluster, id) && id !in Ids(l.after.inventory)
  {
    hide Apply, Pruned, Errors, Fates, Ids, StaleSet, LastFor;
    RenderedIds(l.pass.rs, id);
    OtherIsUntouched(l.pass.prune, l.before.inventory, l.pass.owner, l.pass.rs, l.pass.api, l.before.cluster,
                     l.after.cluster, id);
  }

  // Deletion

  function DeletionPass(s: DeletionRuns.Settings, st: Status, call: DeletionRuns.Call): Pass {
    if DeletionRuns.Prunes(s, st, call) then Cleanup(s.owner, call.env.prune)
    else if DeletionRuns.Orphans(s, st, call) && call.env.patched then Orphaning
    else Idle
  }

  lemma DeletionMoves(s: DeletionRuns.Settings, st: Status, c: State, call: DeletionRuns.Call)
    ensures var d := DeletionRuns.Attempt(s, st, c, call);
            Moves(Line(Snap(PreviousEntries(st), c), DeletionPass(s, st, call),
                       Snap(PreviousEntries(d.status), d.cluster)))
  {
    hide DeletionRuns.Attempt, Pruned;
    DeletionRuns.AttemptEffect(s, st, c, call);
  }

  /** When a deletion attempt drops the finalizer with pruning on, every live object ever applied is pending
      or an exception, or kept by the guard, or left behind by an orphan exit whose status was lost. */
  lemma DropAccounts(s: DeletionRuns.Settings, st: Status, c: State, call: DeletionRuns.Call, t: Trace, id: Ident)
    requires Accounted(Snap(PreviousEntries(st), c), t) && s.prune && !DeletionRuns.Attempt(s, st, c, call).finalizer
    ensures var c' := DeletionRuns.Attempt(s, st, c, call).cluster;
            id in t.applied && id in c' ==>
              || id in t.pending + Exceptions(t)
              || (id in Ids(PreviousEntries(st)) && Guarded(c', s.owner, id))
              || (id in Ids(PreviousEntries(st)) && DeletionRuns.Orphans(s, st, call))
  {
    hide DeletionRuns.Attempt, Pruned, Errors, Fates, Exceptions;
    var es := PreviousEntries(st);
    DeletionRuns.FinalizerDropsExactly(s, st, c, call);
    DeletionRuns.AttemptEffect(s, st, c, call);
    PruneShape(c, s.owner, es, call.env.prune);
  }
}
