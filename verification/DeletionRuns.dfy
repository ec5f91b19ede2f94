/** Runs of deletion attempts, for a ModuleRelease (`owner` its UUID) or a Release (`owner` ""):
    when the finalizer goes, what is left behind, how far each retry gets, which events appear. */
module DeletionRuns {
  import opened Json
  import opened Inventory
  import opened Cluster
  import opened Prune
  import opened Status
  import opened Reconcile

  /** What an attempt finds in the spec; the owner UUID does not change during a deletion. */
  datatype Settings = Settings(p: Params, prune: bool, serviceAccount: string, owner: string)

  /** The annotations found by an attempt and the outcomes of its calls. */
  datatype Call = Call(annotations: map<string, string>, env: DeletionEnv)

  function Attempt(s: Settings, st: Status, c: State, call: Call): Deletion {
    HandleDeletion(s.p, s.prune, s.serviceAccount, s.owner, call.annotations, st, c, call.env)
  }

  /** An attempt, an edit of the spec, or a change to the cluster by anyone. */
  datatype Turn =
    | Attempts(call: Call)
    | Edited(prune: bool, serviceAccount: string)
    | ClusterChanged(cluster: State)

  function SettingsAfter(s: Settings, turns: seq<Turn>): Settings {
    if turns == [] then s
    else
      var s' := SettingsAfter(s, turns[..|turns| - 1]);
      var t := turns[|turns| - 1];
      if t.Edited? then s'.(prune := t.prune, serviceAccount := t.serviceAccount) else s'
  }

  /** The run: status, finalizer, cluster and all events; it is over once the finalizer is gone. */
  function Run(s: Settings, st: Status, c: State, turns: seq<Turn>): Deletion {
    if turns == [] then Deletion(st, true, c, [])
    else
      var n := |turns| - 1;
      var d := Run(s, st, c, turns[..n]);
      if !d.finalizer then d
      else match turns[n]
        case Attempts(call) =>
          var d' := Attempt(SettingsAfter(s, turns[..n]), d.status, d.cluster, call);
          d'.(events := d.events + d'.events)
        case Edited(_, _) => d
        case ClusterChanged(c') => d.(cluster := c')
  }

  lemma {:induction false} OwnerStays(s: Settings, turns: seq<Turn>)
    ensures SettingsAfter(s, turns).owner == s.owner
  {
    if turns != [] {
      OwnerStays(s, turns[..|turns| - 1]);
    }
  }

  lemma RunAppend(s: Settings, st: Status, c: State, turns: seq<Turn>, t: Turn)
    ensures var s', d := SettingsAfter(s, turns), Run(s, st, c, turns);
            && SettingsAfter(s, turns + [t]) ==
               (if t.Edited? then s'.(prune := t.prune, serviceAccount := t.serviceAccount) else s')
            && (d.finalizer ==>
                  Run(s, st, c, turns + [t]) ==
                  match t
                  case Attempts(call) =>
                    var d' := Attempt(s', d.status, d.cluster, call);
                    d'.(events := d.events + d'.events)
                  case Edited(_, _) => d
                  case ClusterChanged(c') => d.(cluster := c'))
  {
    hide Attempt;
    assert (turns + [t])[..|turns|] == turns;
  }

  predicate Impersonates(s: Settings) {
    EffectiveServiceAccount(s.serviceAccount, s.p.defaultServiceAccount) != "" && s.p.hasRestConfig
  }

  /** The attempt gets as far as pruning the inventory. */
  predicate Prunes(s: Settings, st: Status, call: Call) {
    s.prune && PreviousEntries(st) != [] && (Impersonates(s) ==> call.env.impersonation == ImpersonationOk)
  }

  /** The orphan annotation is there and reads exactly "true". */
  predicate Annotated(call: Call) {
    "opm.dev/force-delete-orphan" in call.annotations && call.annotations["opm.dev/force-delete-orphan"] == "true"
  }

  /** The orphan exit: the annotation reads exactly "true" and the ServiceAccount is missing. */
  predicate Orphans(s: Settings, st: Status, call: Call) {
    && s.prune && PreviousEntries(st) != [] && Impersonates(s)
    && call.env.impersonation == ServiceAccountNotFound && Annotated(call)
  }

  // One attempt

  /** The finalizer goes exactly when its patch succeeds and pruning is off, or the inventory is empty, or the
      whole inventory was pruned without an error, or the orphan exit applies. */
  lemma FinalizerDropsExactly(s: Settings, st: Status, c: State, call: Call)
    ensures var d, es := Attempt(s, st, c, call), PreviousEntries(st);
            !d.finalizer <==>
              && call.env.unfinalized
              && (|| !s.prune || es == []
                  || (Prunes(s, st, call) && Errors(Fates(c, s.owner, es, call.env.prune)) == [])
                  || Orphans(s, st, call))
  {
    hide Pruned, Fates, Errors, IsForbidden;
  }

  /** The reason an attempt stalls for, if it does: a missing ServiceAccount without the annotation, any other
      failure to impersonate, or a prune under a ServiceAccount that is forbidden. */
  function StallReason(s: Settings, st: Status, c: State, call: Call): Option<string> {
    var sa := EffectiveServiceAccount(s.serviceAccount, s.p.defaultServiceAccount);
    if !s.prune || PreviousEntries(st) == [] then None
    else if Impersonates(s) && call.env.impersonation == ServiceAccountNotFound then
      (if Annotated(call) then None else Some(DELETION_SA_MISSING))
    else if Impersonates(s) && call.env.impersonation == ImpersonationError then Some(IMPERSONATION_FAILED)
    else if sa != "" && IsForbidden(Errors(Fates(c, s.owner, PreviousEntries(st), call.env.prune)))
    then Some(IMPERSONATION_FAILED)
    else None
  }

  /** What an attempt says, exactly: a stall sets Ready=False and Stalled with its reason, clears Reconciling,
      keeps the finalizer and emits its event unless Ready said so already; an orphan exit emits its
      count; everything else leaves conditions and events alone; and a lost patch leaves the status. */
  lemma VerdictExactly(s: Settings, st: Status, c: State, call: Call)
    ensures var d, reason := Attempt(s, st, c, call), StallReason(s, st, c, call);
            && (!call.env.patched ==> d.status == st)
            && match reason
               case Some(why) =>
                 && d.finalizer
                 && d.events == (if st.conditions.ready == Some(Condition(False, why)) then [] else [StallEvent(why)])
                 && (call.env.patched ==>
                       d.status == st.(conditions := st.conditions.(ready := Some(Condition(False, why)),
                                                                    stalled := Some(Condition(True, why)),
                                                                    reconciling := None)))
               case None =>
                 && d.status.conditions == st.conditions
                 && d.events == if Orphans(s, st, call) then [OrphanedEvent(|PreviousEntries(st)|)] else []
  {
    hide Pruned, Fates, Errors;
  }

  /** An attempt prunes or leaves the cluster alone, and only the orphan exit touches the inventory. */
  lemma AttemptEffect(s: Settings, st: Status, c: State, call: Call)
    ensures var d, es := Attempt(s, st, c, call), PreviousEntries(st);
            && d.cluster == (if Prunes(s, st, call) then Pruned(c, s.owner, es, call.env.prune) else c)
            && PreviousEntries(d.status) == (if Orphans(s, st, call) && call.env.patched then [] else es)
            && ((exists n :: OrphanedEvent(n) in d.events) <==> Orphans(s, st, call))
  {
    hide Pruned, Fates, Errors, IsForbidden;
    var d := Attempt(s, st, c, call);
    if Orphans(s, st, call) {
      assert OrphanedEvent(|PreviousEntries(st)|) in d.events;
    }
  }

  /** Pruning takes its removals out of the deletable set and changes nothing else in it. */
  lemma DeletableAfterPrune(c: State, owner: string, es: seq<Entry>, api: nat -> Calls)
    ensures Deletable(Pruned(c, owner, es, api), owner, es) == Deletable(c, owner, es) - Removed(c, owner, es, api)
    ensures |Deletable(c, owner, es)| ==
            |Deletable(Pruned(c, owner, es, api), owner, es)| + Tally(Fates(c, owner, es, api), {Deleted, Vanished})
    ensures Errors(Fates(c, owner, es, api)) == [] ==> Deletable(Pruned(c, owner, es, api), owner, es) == {}
  {
    hide Pruned, Fates, Errors, Deletable, Removed, Tally;
    PruneShape(c, owner, es, api);
    RemovedCount(c, owner, es, api);
    var d, r := Deletable(c, owner, es), Removed(c, owner, es, api);
    DeletableWithout(c, owner, es, r);
    assert d == (d - r) + r;
    assert |d| == |d - r| + |r|;
  }

  lemma DeletableWithout(c: State, owner: string, es: seq<Entry>, r: set<Ident>)
    ensures Deletable(c - r, owner, es) == Deletable(c, owner, es) - r
  {
    hide Owned;
    forall id ensures id in Deletable(c - r, owner, es) <==> id in Deletable(c, owner, es) - r {
      assert id in c - r <==> id in c && id !in r;
    }
  }

  // Runs

  /** Objects removed by the run's prunes. */
  function RemovedTotal(s: Settings, st: Status, c: State, turns: seq<Turn>): nat {
    if turns == [] then 0
    else
      var n := |turns| - 1;
      var s', d := SettingsAfter(s, turns[..n]), Run(s, st, c, turns[..n]);
      RemovedTotal(s, st, c, turns[..n]) +
      if d.finalizer && turns[n].Attempts? && Prunes(s', d.status, turns[n].call)
      then Tally(Fates(d.cluster, s.owner, PreviousEntries(d.status), turns[n].call.env.prune), {Deleted, Vanished})
      else 0
  }

  /** The inventory the run works on is the one it started with, until an orphan exit clears it. */
  lemma {:induction false} InventoryStays(s: Settings, st: Status, c: State, turns: seq<Turn>)
    ensures var d := Run(s, st, c, turns);
            PreviousEntries(d.status) == PreviousEntries(st) ||
            (PreviousEntries(d.status) == [] && exists n :: OrphanedEvent(n) in d.events)
  {
    if turns != [] {
      hide Attempt;
      var n := |turns| - 1;
      InventoryStays(s, st, c, turns[..n]);
      var s', d := SettingsAfter(s, turns[..n]), Run(s, st, c, turns[..n]);
      if d.finalizer && turns[n].Attempts? {
        AttemptEffect(s', d.status, d.cluster, turns[n].call);
        EventsGrow(d.events, Attempt(s', d.status, d.cluster, turns[n].call).events);
      }
    }
  }

  lemma EventsGrow(a: seq<Event>, b: seq<Event>)
    ensures (exists n :: OrphanedEvent(n) in a + b) <==>
            (exists n :: OrphanedEvent(n) in a) || (exists n :: OrphanedEvent(n) in b)
  {
    forall n | OrphanedEvent(n) in a ensures OrphanedEvent(n) in a + b { }
    forall n | OrphanedEvent(n) in b ensures OrphanedEvent(n) in a + b { }
  }

  /** Conservation: over any run in which nobody else touches the cluster, the live deletable objects of
      the inventory never grow, and those left plus those removed are those there were. */
  lemma {:induction false} DeletionConserves(s: Settings, st: Status, c: State, turns: seq<Turn>)
    requires forall i :: 0 <= i < |turns| ==> !turns[i].ClusterChanged?
    ensures var es, d := PreviousEntries(st), Run(s, st, c, turns);
            && Deletable(d.cluster, s.owner, es) <= Deletable(c, s.owner, es)
            && |Deletable(c, s.owner, es)| == |Deletable(d.cluster, s.owner, es)| + RemovedTotal(s, st, c, turns)
  {
    if turns != [] {
      hide Attempt, Deletable, Fates, Tally, Pruned;
      var n := |turns| - 1;
      DeletionConserves(s, st, c, turns[..n]);
      InventoryStays(s, st, c, turns[..n]);
      OwnerStays(s, turns[..n]);
      var s', d := SettingsAfter(s, turns[..n]), Run(s, st, c, turns[..n]);
      if d.finalizer && turns[n].Attempts? {
        AttemptEffect(s', d.status, d.cluster, turns[n].call);
        if Prunes(s', d.status, turns[n].call) {
          DeletableAfterPrune(d.cluster, s.owner, PreviousEntries(st), turns[n].call.env.prune);
        }
      }
    }
  }

  /** Finalizer safety over runs with any edits and any changes to the cluster in between: when the
      finalizer goes, pruning is off at that moment, or nothing deletable of the inventory is left in
      the cluster, or the operator asked to orphan it. */
  lemma {:induction false} FinalizerSafety(s: Settings, st: Status, c: State, turns: seq<Turn>)
    requires !Run(s, st, c, turns).finalizer
    ensures var d := Run(s, st, c, turns);
            || (exists n :: 0 <= n < |turns| && DropsUnpruned(s, st, c, turns, n))
            || Deletable(d.cluster, s.owner, PreviousEntries(st)) == {}
            || (exists n :: OrphanedEvent(n) in d.events)
  {
    hide Attempt, Deletable, Fates, Errors, Pruned, DropsUnpruned;
    var n := |turns| - 1;
    var s', d := SettingsAfter(s, turns[..n]), Run(s, st, c, turns[..n]);
    if !d.finalizer {
      FinalizerSafety(s, st, c, turns[..n]);
      forall m | 0 <= m < n && DropsUnpruned(s, st, c, turns[..n], m) ensures DropsUnpruned(s, st, c, turns, m) {
        DropStays(s, st, c, turns, m);
      }
    } else if s'.prune {
      DropIsSafe(s, st, c, turns);
    } else {
      assert DropsUnpruned(s, st, c, turns, n) by { UnprunedNow(s, st, c, turns); }
    }
  }

  /** Turn `n` drops the finalizer with pruning off. */
  ghost predicate DropsUnpruned(s: Settings, st: Status, c: State, turns: seq<Turn>, n: nat)
    requires n < |turns|
  {
    && turns[n].Attempts? && !SettingsAfter(s, turns[..n]).prune
    && Run(s, st, c, turns[..n]).finalizer && !Run(s, st, c, turns[..n + 1]).finalizer
  }

  lemma DropStays(s: Settings, st: Status, c: State, turns: seq<Turn>, m: nat)
    requires m < |turns| - 1 && DropsUnpruned(s, st, c, turns[..|turns| - 1], m)
    ensures DropsUnpruned(s, st, c, turns, m)
  {
    var prefix := turns[..|turns| - 1];
    assert prefix[..m] == turns[..m] && prefix[..m + 1] == turns[..m + 1];
  }

  lemma UnprunedNow(s: Settings, st: Status, c: State, turns: seq<Turn>)
    requires turns != [] && !SettingsAfter(s, turns[..|turns| - 1]).prune
    requires Run(s, st, c, turns[..|turns| - 1]).finalizer && !Run(s, st, c, turns).finalizer
    ensures DropsUnpruned(s, st, c, turns, |turns| - 1)
  {
    assert turns[..|turns| - 1 + 1] == turns;
  }

  lemma DropIsSafe(s: Settings, st: Status, c: State, turns: seq<Turn>)
    requires turns != [] && SettingsAfter(s, turns[..|turns| - 1]).prune
    requires Run(s, st, c, turns[..|turns| - 1]).finalizer && !Run(s, st, c, turns).finalizer
    ensures var d := Run(s, st, c, turns);
            Deletable(d.cluster, s.owner, PreviousEntries(st)) == {} || exists n :: OrphanedEvent(n) in d.events
  {
    hide Attempt, Deletable, Fates, Errors, Pruned;
    var n := |turns| - 1;
    var s', d, call := SettingsAfter(s, turns[..n]), Run(s, st, c, turns[..n]), turns[n].call;
    var d' := Attempt(s', d.status, d.cluster, call);
    OwnerStays(s, turns[..n]);
    InventoryStays(s, st, c, turns[..n]);
    FinalizerDropsExactly(s', d.status, d.cluster, call);
    AttemptEffect(s', d.status, d.cluster, call);
    EventsGrow(d.events, d'.events);
    if PreviousEntries(d.status) == PreviousEntries(st) {
      if PreviousEntries(st) == [] {
        NothingDeletable(d'.cluster, s.owner);
      } else if !Orphans(s', d.status, call) {
        DeletableAfterPrune(d.cluster, s.owner, PreviousEntries(st), call.env.prune);
      }
    }
  }

  lemma NothingDeletable(c: State, owner: string)
    ensures Deletable(c, owner, []) == {}
  {
  }

  /** An attempt whose calls all succeed. */
  ghost predicate CleanCall(call: Call) {
    && call.env.impersonation == ImpersonationOk && call.env.patched && call.env.unfinalized
    && FaultFree(call.env.prune)
  }

  /** Progress: whatever failed before, one attempt whose calls all succeed ends the deletion. */
  lemma DeletionFinishes(s: Settings, st: Status, c: State, turns: seq<Turn>, last: Call)
    requires CleanCall(last)
    ensures !Run(s, st, c, turns + [Attempts(last)]).finalizer
  {
    hide Fates, Errors, Pruned, IsForbidden;
    assert (turns + [Attempts(last)])[..|turns|] == turns;
    var d := Run(s, st, c, turns);
    FaultFreePrune(d.cluster, SettingsAfter(s, turns).owner, PreviousEntries(d.status), last.env.prune);
  }

  // Events

  function Stalls(events: seq<Event>): seq<Event> {
    if events == [] then []
    else Stalls(events[..|events| - 1]) +
         (if events[|events| - 1].StallEvent? then [events[|events| - 1]] else [])
  }

  lemma {:induction false} StallsAppend(a: seq<Event>, b: seq<Event>)
    ensures Stalls(a + b) == Stalls(a) + Stalls(b)
  {
    if b == [] {
      assert a + b == a;
    } else {
      var n := |b| - 1;
      assert (a + b)[..|a| + n] == a + b[..n];
      StallsAppend(a, b[..n]);
    }
  }

  /** How often the stored Ready condition changed during the run. */
  function ReadyChanges(s: Settings, st: Status, c: State, turns: seq<Turn>): nat {
    if turns == [] then 0
    else
      var before := Run(s, st, c, turns[..|turns| - 1]);
      var after := Run(s, st, c, turns);
      ReadyChanges(s, st, c, turns[..|turns| - 1]) +
      if before.status.conditions.ready != after.status.conditions.ready then 1 else 0
  }

  /** Every status patch of the run is stored. */
  ghost predicate AllPatched(turns: seq<Turn>) {
    forall i :: 0 <= i < |turns| && turns[i].Attempts? ==> turns[i].call.env.patched
  }

  /** An attempt whose patch is stored emits one stall event exactly when it changes Ready, and
      then Ready carries the event's reason. */
  lemma AttemptEvents(s: Settings, st: Status, c: State, call: Call)
    requires call.env.patched
    ensures var d := Attempt(s, st, c, call);
            && |Stalls(d.events)| == (if d.status.conditions.ready != st.conditions.ready then 1 else 0)
            && (forall x :: x in Stalls(d.events) ==> x.StallEvent? && ReadyFalseWith(d.status, x.reason))
  {
    hide Pruned, Fates, Errors, IsForbidden;
    var d := Attempt(s, st, c, call);
    if d.events != [] {
      assert d.events[..0] == [];
    }
  }

  /** Event deduplication: as long as status patches are stored, the stall events of a run are as
      many as the changes of the stored Ready condition, whatever is edited or changed in between. */
  lemma {:induction false} StallEventsFollowReady(s: Settings, st: Status, c: State, turns: seq<Turn>)
    requires AllPatched(turns)
    ensures |Stalls(Run(s, st, c, turns).events)| == ReadyChanges(s, st, c, turns)
  {
    if turns != [] {
      hide Attempt;
      var n := |turns| - 1;
      StallEventsFollowReady(s, st, c, turns[..n]);
      var s', d := SettingsAfter(s, turns[..n]), Run(s, st, c, turns[..n]);
      if d.finalizer && turns[n].Attempts? {
        AttemptEvents(s', d.status, d.cluster, turns[n].call);
        StallsAppend(d.events, Attempt(s', d.status, d.cluster, turns[n].call).events);
      }
    }
  }

  /** A release that only ever stalls for one reason emits at most one stall event, for ever. */
  lemma {:induction false} OneReasonOneEvent(s: Settings, st: Status, c: State, turns: seq<Turn>, reason: string)
    requires AllPatched(turns)
    requires forall x :: x in Stalls(Run(s, st, c, turns).events) ==> x == StallEvent(reason)
    ensures |Stalls(Run(s, st, c, turns).events)| <= 1
    ensures Stalls(Run(s, st, c, turns).events) != [] ==> ReadyFalseWith(Run(s, st, c, turns).status, reason)
  {
    if turns != [] {
      hide Attempt;
      var n := |turns| - 1;
      var s', d := SettingsAfter(s, turns[..n]), Run(s, st, c, turns[..n]);
      if d.finalizer && turns[n].Attempts? {
        var d' := Attempt(s', d.status, d.cluster, turns[n].call);
        StallsAppend(d.events, d'.events);
        assert Run(s, st, c, turns).events == d.events + d'.events;
        assert forall x :: x in Stalls(d.events) ==> x in Stalls(d.events + d'.events);
        OneReasonOneEvent(s, st, c, turns[..n], reason);
        AttemptEvents(s', d.status, d.cluster, turns[n].call);
        if Stalls(d'.events) != [] {
          assert Stalls(d'.events)[0] in Stalls(d.events + d'.events);
        }
      } else {
        assert Run(s, st, c, turns).events == d.events && Run(s, st, c, turns).status == d.status;
        OneReasonOneEvent(s, st, c, turns[..n], reason);
      }
    }
  }
}
