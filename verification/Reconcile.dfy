/** What the two reconcile loops share: the attempt's environment, the deferred status
    commit, the failure counters and the deletion path. */
module Reconcile {
  import opened Json
  import opened Digests
  import opened Inventory
  import opened Cluster
  import opened Prune
  import opened Status
  import opened Backoff

  datatype Outcome = NoOp | Applied | AppliedAndPruned | FailedTransient | FailedStalled

  datatype Phases = Phases(driftRan: bool, driftFailed: bool, applyRan: bool, applyFailed: bool,
                           pruneRan: bool, pruneFailed: bool)

  const NO_PHASES := Phases(false, false, false, false, false, false)

  /** What the phases leave for the deferred commit; `errMsg` is "" when none was recorded. */
  datatype Verdict = Verdict(outcome: Outcome, digests: DigestSet, reconciled: bool, entries: seq<Entry>,
                             errMsg: string, retryAfter: nat, phases: Phases)

  /** The in-memory status, the cluster and the verdict when the deferred commit starts. */
  datatype Attempt = Attempt(status: Status, cluster: State, verdict: Verdict)

  datatype Params = Params(num: NumText -> NumText, defaultServiceAccount: string, hasRestConfig: bool)

  datatype Impersonation = ImpersonationOk | ServiceAccountNotFound | ImpersonationError

  /** A failed apply has applied the manifests `done` holds for. */
  datatype ApplyCall = ApplyOk | ApplyFault(fault: Fault, done: nat -> bool)

  /** A custom resource as the API server stores it. */
  datatype Release<S> = Release(spec: S, finalizer: bool, deleting: bool, annotations: map<string, string>,
                                status: Status)

  function EffectiveServiceAccount(spec: string, default_: string): string {
    if spec != "" then spec else default_
  }

  function LastAppliedDigests(st: Status): DigestSet {
    st.lastApplied.(inventory := match st.inventory case Some(i) => i.digest case None => NoDigest)
  }

  function PreviousEntries(st: Status): seq<Entry> {
    match st.inventory case Some(i) => i.entries case None => []
  }

  predicate Failing(o: Outcome) {
    o == FailedTransient || o == FailedStalled
  }

  // Phases

  function Stall(st: Status, reason: string, c: State, d: DigestSet, errMsg: string, ph: Phases): Attempt {
    Attempt(MarkStalled(st, reason), c, Verdict(FailedStalled, d, false, [], errMsg, STALLED_RECHECK, ph))
  }

  /** ApplyAllStaged, per object and in order; a failed call has applied what `done` holds for. */
  method ApplyAll(store: Store, ms: seq<Value>, call: ApplyCall) returns (failure: Option<Fault>)
    modifies store
    ensures store.objects == Apply(old(store.objects), ms, if call.ApplyFault? then call.done else EVERY)
    ensures failure == if call.ApplyFault? then Some(call.fault) else None
  {
    var done: nat -> bool := if call.ApplyFault? then call.done else EVERY;
    ghost var before := store.objects;
    for i := 0 to |ms|
      invariant store.objects == Apply(before, ms[..i], done)
    {
      ApplyStep(before, ms, done, i);
      var live := store.objects;
      if done(i) {
        store.objects := live[IdOf(ms[i]) := Merge(Get(live, IdOf(ms[i])), ms[i])];
      }
    }
    assert ms[..|ms|] == ms;
    failure := if call.ApplyFault? then Some(call.fault) else None;
  }

  // Failure counters

  function Streak(ran: bool, failed: bool, count: nat): nat {
    if !ran then count else if failed then count + 1 else 0
  }

  function UpdateCounters(st: Status, o: Outcome, ph: Phases): Status {
    var c := CountersOf(st);
    st.(counters := Some(Counters(
      Streak(true, Failing(o), c.reconcile),
      Streak(ph.applyRan, ph.applyFailed, c.apply),
      Streak(ph.pruneRan, ph.pruneFailed, c.prune),
      Streak(ph.driftRan, ph.driftFailed, c.drift))))
  }

  /** One phase's counter: up on failure, zero on success, untouched when it did not run. */
  method Track(subject: Subject, f: Counter, ran: bool, failed: bool)
    requires subject.st.counters.Some?
    modifies subject
    ensures subject.st == old(subject.st).(counters := Some(Tracked(old(subject.st).counters.value, f, ran, failed)))
  {
    if ran {
      if failed {
        subject.IncrementCounter(f);
      } else {
        subject.ResetCounter(f);
      }
    }
  }

  function Tracked(c: Counters, f: Counter, ran: bool, failed: bool): Counters {
    if !ran then c else if failed then Bump(c, f) else Zero(c, f)
  }

  method UpdateFailureCounters(subject: Subject, o: Outcome, ph: Phases)
    modifies subject
    ensures subject.st == UpdateCounters(old(subject.st), o, ph)
  {
    subject.EnsureCounters();
    Track(subject, DriftCounter, ph.driftRan, ph.driftFailed);
    Track(subject, ApplyCounter, ph.applyRan, ph.applyFailed);
    Track(subject, PruneCounter, ph.pruneRan, ph.pruneFailed);
    Track(subject, ReconcileCounter, true, Failing(o));
  }

  /** The delay after a failed apply or a transient prune failure. */
  function RetryDelay(st: Status): nat {
    ComputeBackoff(CountersOf(st).reconcile + 1)
  }

  // Deferred commit

  function SuccessEntry(v: Verdict): HistoryEntry {
    HistoryEntry(0, v.digests.(inventory := ComputeDigest(v.entries)), |v.entries|, "")
  }

  function FailureEntry(v: Verdict): HistoryEntry {
    HistoryEntry(0, v.digests, 0, v.errMsg)
  }

  function NextInventory(st: Status, entries: seq<Entry>): InventoryRecord {
    InventoryRecord(match st.inventory case Some(i) => i.revision + 1 case None => 1,
                    ComputeDigest(entries), |entries|, entries)
  }

  /** Last-applied digests, inventory and history: written together on success, the
      history alone on a failure with a message. */
  function Recorded(st: Status, v: Verdict): Status {
    if v.reconciled then
      st.(lastApplied := v.digests.(inventory := NoDigest),
          inventory := Some(NextInventory(st, v.entries)),
          history := Record(st.history, SuccessEntry(v)))
    else if v.errMsg != "" then st.(history := Record(st.history, FailureEntry(v)))
    else st
  }

  /** What a commit leaves in the status. */
  function Commit(st: Status, v: Verdict): Status {
    if v.outcome == NoOp then UpdateCounters(MarkReady(st), v.outcome, v.phases).(nextRetry := None)
    else UpdateCounters(Recorded(st, v), v.outcome, v.phases).(
           lastAttempted := v.digests.(inventory := NoDigest),
           nextRetry := if v.retryAfter > 0 then Some(v.retryAfter) else None)
  }

  method RecordOutcome(subject: Subject, v: Verdict)
    modifies subject
    ensures subject.st == Recorded(old(subject.st), v)
  {
    if v.reconciled {
      subject.st := subject.st.(lastApplied := v.digests.(inventory := NoDigest));
      var digest := ComputeDigest(v.entries);
      var revision := 1;
      if subject.st.inventory.Some? {
        revision := subject.st.inventory.value.revision + 1;
      }
      subject.st := subject.st.(inventory := Some(InventoryRecord(revision, digest, |v.entries|, v.entries)));
      subject.RecordHistory(SuccessEntry(v));
    } else if v.errMsg != "" {
      subject.RecordHistory(FailureEntry(v));
    }
  }

  /** The body of the deferred function. */
  method CommitStatus(subject: Subject, v: Verdict)
    modifies subject
    ensures subject.st == Commit(old(subject.st), v)
  {
    if v.outcome == NoOp {
      subject.Succeed();
      UpdateFailureCounters(subject, v.outcome, v.phases);
      subject.st := subject.st.(nextRetry := None);
    } else {
      RecordOutcome(subject, v);
      UpdateFailureCounters(subject, v.outcome, v.phases);
      subject.st := subject.st.(lastAttempted := v.digests.(inventory := NoDigest),
                                nextRetry := if v.retryAfter > 0 then Some(v.retryAfter) else None);
    }
  }

  // Deletion

  const ORPHAN_ANNOTATION := "opm.dev/force-delete-orphan"

  datatype Event = StallEvent(reason: string) | OrphanedEvent(count: nat)

  /** API outcomes of one deletion attempt: `patched` for the status, `unfinalized` for the finalizer. */
  datatype DeletionEnv = DeletionEnv(impersonation: Impersonation, prune: nat -> Calls, patched: bool,
                                     unfinalized: bool)

  datatype Deletion = Deletion(status: Status, finalizer: bool, cluster: State, events: seq<Event>)

  /** A stall: the condition, an event unless Ready already says so, the finalizer kept. */
  function StallDeletion(st: Status, c: State, reason: string, e: DeletionEnv): Deletion {
    Deletion(if e.patched then MarkStalled(st, reason) else st, true, c,
             if ReadyFalseWith(st, reason) then [] else [StallEvent(reason)])
  }

  predicate WantsOrphan(annotations: map<string, string>) {
    ORPHAN_ANNOTATION in annotations && annotations[ORPHAN_ANNOTATION] == "true"
  }

  /** The impersonation failure: orphan on request, stall otherwise. */
  function DeletionWithoutClient(annotations: map<string, string>, st: Status, c: State, e: DeletionEnv): Deletion {
    if e.impersonation != ServiceAccountNotFound then StallDeletion(st, c, IMPERSONATION_FAILED, e)
    else if !WantsOrphan(annotations) then StallDeletion(st, c, DELETION_SA_MISSING, e)
    else Deletion(if e.patched then st.(inventory := None) else st, !e.unfinalized, c,
                  [OrphanedEvent(|PreviousEntries(st)|)])
  }

  /** handleDeletion and handleReleaseDeletion: `ownerUUID` is the status UUID for a
      ModuleRelease, "" for a Release. */
  function HandleDeletion(p: Params, prune: bool, serviceAccount: string, ownerUUID: string,
                          annotations: map<string, string>, st: Status, c: State, e: DeletionEnv): Deletion {
    var sa := EffectiveServiceAccount(serviceAccount, p.defaultServiceAccount);
    var es := PreviousEntries(st);
    if !prune || es == [] then Deletion(st, !e.unfinalized, c, [])
    else if sa != "" && p.hasRestConfig && e.impersonation != ImpersonationOk then
      DeletionWithoutClient(annotations, st, c, e)
    else
      var c' := Pruned(c, ownerUUID, es, e.prune);
      var errs := Errors(Fates(c, ownerUUID, es, e.prune));
      if errs == [] then Deletion(st, !e.unfinalized, c', [])
      else if sa != "" && IsForbidden(errs) then StallDeletion(st, c', IMPERSONATION_FAILED, e)
      else Deletion(st, true, c', [])
  }

  /** The API server's copy of one custom resource and the cluster it manages. */
  class Server<S> {
    var release: Release<S>
    var store: Store
    var events: seq<Event>

    constructor (release: Release<S>, store: Store)
      ensures this.release == release && this.store == store && events == []
    {
      this.release := release;
      this.store := store;
      events := [];
    }

    method PatchStatus(subject: Subject, ok: bool)
      modifies this`release
      ensures release == old(release).(status := if ok then subject.st else old(release).status)
    {
      if ok {
        release := release.(status := subject.st);
      }
    }

    method RemoveFinalizer(ok: bool)
      modifies this`release
      ensures release == old(release).(finalizer := !ok && old(release).finalizer)
    {
      if ok {
        release := release.(finalizer := false);
      }
    }

    method StallOnDeletion(subject: Subject, reason: string, e: DeletionEnv)
      requires subject.st == release.status
      modifies this`release, this`events, subject
      ensures release == old(release).(status := if e.patched then MarkStalled(old(release).status, reason)
                                                 else old(release).status)
      ensures events == old(events) + if ReadyFalseWith(old(release).status, reason) then [] else [StallEvent(reason)]
    {
      var emit := !ReadyFalseWith(subject.st, reason);
      subject.Stall(reason);
      if emit {
        events := events + [StallEvent(reason)];
      }
      PatchStatus(subject, e.patched);
    }

    /** handleDeletionImpersonationFailure */
    method DeleteWithoutClient(subject: Subject, e: DeletionEnv)
      requires release.finalizer && subject.st == release.status
      modifies this`release, this`events, subject
      ensures var d := DeletionWithoutClient(old(release).annotations, old(release).status, store.objects, e);
              && release == old(release).(status := d.status, finalizer := d.finalizer)
              && events == old(events) + d.events
    {
      if e.impersonation == ServiceAccountNotFound {
        if WantsOrphan(release.annotations) {
          events := events + [OrphanedEvent(|PreviousEntries(subject.st)|)];
          subject.st := subject.st.(inventory := None);
          PatchStatus(subject, e.patched);
          RemoveFinalizer(e.unfinalized);
          return;
        }
        StallOnDeletion(subject, DELETION_SA_MISSING, e);
        return;
      }
      StallOnDeletion(subject, IMPERSONATION_FAILED, e);
    }

    /** handleDeletion: prune everything in the inventory, then let the finalizer go. */
    method Delete(p: Params, prune: bool, serviceAccount: string, ownerUUID: string, e: DeletionEnv)
      requires release.finalizer
      modifies this`release, this`events, store
      ensures var d := HandleDeletion(p, prune, serviceAccount, ownerUUID, old(release).annotations,
                                      old(release).status, old(store.objects), e);
              && release == old(release).(status := d.status, finalizer := d.finalizer)
              && store.objects == d.cluster
              && events == old(events) + d.events
    {
      var subject := new Subject(release.status);
      var es := PreviousEntries(subject.st);
      if !prune || |es| == 0 {
        RemoveFinalizer(e.unfinalized);
        return;
      }
      var sa := EffectiveServiceAccount(serviceAccount, p.defaultServiceAccount);
      if sa != "" && p.hasRestConfig && e.impersonation != ImpersonationOk {
        DeleteWithoutClient(subject, e);
        return;
      }
      var result := store.Prune(ownerUUID, es, e.prune);
      if result.errs != [] {
        if sa != "" && IsForbidden(result.errs) {
          StallOnDeletion(subject, IMPERSONATION_FAILED, e);
        }
        return;
      }
      RemoveFinalizer(e.unfinalized);
    }
  }
}
