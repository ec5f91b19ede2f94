/** The status ledger (internal/status): conditions, failure counters, bounded history,
    each as functions on a status value and as methods that update a status in place. */
module Status {
  import opened Json
  import opened Digests
  import opened Inventory

  datatype ConditionType = Ready | Reconciling | Stalled | ModuleResolved | Drifted
  datatype ConditionStatus = True | False | Unknown
  datatype Condition = Condition(status: ConditionStatus, reason: string)

  /** The condition list, which holds at most one condition of each type. */
  datatype Conditions = Conditions(ready: Option<Condition>, reconciling: Option<Condition>,
                                   stalled: Option<Condition>, moduleResolved: Option<Condition>,
                                   drifted: Option<Condition>)

  const SUSPENDED := "Suspended"
  const SUCCEEDED := "ReconciliationSucceeded"
  const RESOLUTION_FAILED := "ResolutionFailed"
  const RENDER_FAILED := "RenderFailed"
  const APPLY_FAILED := "ApplyFailed"
  const PRUNE_FAILED := "PruneFailed"
  const IMPERSONATION_FAILED := "ImpersonationFailed"
  const DELETION_SA_MISSING := "DeletionSAMissing"
  const DRIFT_DETECTED := "DriftDetected"
  const SOURCE_NOT_READY := "SourceNotReady"
  const FETCH_FAILED := "FetchFailed"
  const PATH_NOT_FOUND := "PathNotFound"
  const RELEASE_FILE_NOT_FOUND := "ReleaseFileNotFound"
  const UNSUPPORTED_KIND := "UnsupportedKind"
  const DEPENDENCIES_NOT_READY := "DependenciesNotReady"
  const PROGRESSING := "Progressing"

  datatype Counters = Counters(reconcile: nat, apply: nat, prune: nat, drift: nat)
  datatype Counter = ReconcileCounter | ApplyCounter | PruneCounter | DriftCounter

  datatype InventoryRecord = InventoryRecord(revision: nat, digest: Digest, count: nat, entries: seq<Entry>)

  /** `message` is "" for a success. */
  datatype HistoryEntry = HistoryEntry(sequence: nat, digests: DigestSet, inventoryCount: nat, message: string)

  datatype Status = Status(
    releaseUUID: string,
    conditions: Conditions,
    lastAttempted: DigestSet,
    lastApplied: DigestSet,
    counters: Option<Counters>,
    inventory: Option<InventoryRecord>,
    history: seq<HistoryEntry>,
    nextRetry: Option<nat>)

  const NO_DIGESTS := DigestSet(NoDigest, NoDigest, NoDigest, NoDigest)
  const EMPTY := Status("", Conditions(None, None, None, None, None), NO_DIGESTS, NO_DIGESTS, None, None, [], None)

  // Conditions

  function Placed(cs: Conditions, t: ConditionType, c: Option<Condition>): Conditions {
    match t
    case Ready => cs.(ready := c)
    case Reconciling => cs.(reconciling := c)
    case Stalled => cs.(stalled := c)
    case ModuleResolved => cs.(moduleResolved := c)
    case Drifted => cs.(drifted := c)
  }

  function Set(st: Status, t: ConditionType, s: ConditionStatus, reason: string): Status {
    st.(conditions := Placed(st.conditions, t, Some(Condition(s, reason))))
  }

  function Unset(st: Status, t: ConditionType): Status {
    st.(conditions := Placed(st.conditions, t, None))
  }

  function MarkReconciling(st: Status, reason: string): Status {
    Set(Set(Unset(st, Stalled), Reconciling, True, reason), Ready, Unknown, reason)
  }

  function MarkStalled(st: Status, reason: string): Status {
    Set(Set(Unset(st, Reconciling), Stalled, True, reason), Ready, False, reason)
  }

  function MarkReady(st: Status): Status {
    Set(Unset(Unset(st, Reconciling), Stalled), Ready, True, SUCCEEDED)
  }

  function MarkSuspended(st: Status): Status {
    Set(Unset(Unset(st, Reconciling), Stalled), Ready, False, SUSPENDED)
  }

  function MarkNotReady(st: Status, reason: string): Status {
    Set(st, Ready, False, reason)
  }

  predicate IsReady(st: Status) {
    st.conditions.ready.Some? && st.conditions.ready.value.status == True
  }

  /** Reconciling and Stalled exclude each other, and Ready=True excludes both. */
  ghost predicate Coherent(st: Status) {
    && !(st.conditions.reconciling.Some? && st.conditions.stalled.Some?)
    && (IsReady(st) ==> st.conditions.reconciling.None? && st.conditions.stalled.None?)
  }

  /** readyAlreadyStalledWith */
  predicate ReadyFalseWith(st: Status, reason: string) {
    st.conditions.ready == Some(Condition(False, reason))
  }

  // Counters

  function Bump(c: Counters, f: Counter): Counters {
    match f
    case ReconcileCounter => c.(reconcile := c.reconcile + 1)
    case ApplyCounter => c.(apply := c.apply + 1)
    case PruneCounter => c.(prune := c.prune + 1)
    case DriftCounter => c.(drift := c.drift + 1)
  }

  function Zero(c: Counters, f: Counter): Counters {
    match f
    case ReconcileCounter => c.(reconcile := 0)
    case ApplyCounter => c.(apply := 0)
    case PruneCounter => c.(prune := 0)
    case DriftCounter => c.(drift := 0)
  }

  function CountersOf(st: Status): Counters {
    match st.counters
    case Some(c) => c
    case None => Counters(0, 0, 0, 0)
  }

  // History

  const MAX_HISTORY := 10

  function MaxSequence(h: seq<HistoryEntry>): nat {
    if h == [] then 0
    else
      var m := MaxSequence(h[..|h| - 1]);
      if h[|h| - 1].sequence > m then h[|h| - 1].sequence else m
  }

  function NextSequence(h: seq<HistoryEntry>): nat {
    if h == [] then 1 else MaxSequence(h) + 1
  }

  function Record(h: seq<HistoryEntry>, e: HistoryEntry): seq<HistoryEntry> {
    var full := [e.(sequence := NextSequence(h))] + h;
    if |full| > MAX_HISTORY then full[..MAX_HISTORY] else full
  }

  /** The stored history after recording the entries of a log, oldest first. */
  function RecordAll(log: seq<HistoryEntry>): seq<HistoryEntry> {
    if log == [] then [] else Record(RecordAll(log[..|log| - 1]), log[|log| - 1])
  }

  /** The newest entries of the log, newest first, numbered by their place in it. */
  ghost predicate Newest(h: seq<HistoryEntry>, log: seq<HistoryEntry>) {
    && |h| == (if |log| < MAX_HISTORY then |log| else MAX_HISTORY)
    && forall i :: 0 <= i < |h| ==> h[i] == log[|log| - 1 - i].(sequence := |log| - i)
  }

  lemma {:induction false} MaxSequenceFirst(h: seq<HistoryEntry>, top: nat)
    requires h != [] && h[0].sequence == top && forall i :: 0 <= i < |h| ==> h[i].sequence <= top
    ensures MaxSequence(h) == top
  {
    if |h| > 1 {
      MaxSequenceFirst(h[..|h| - 1], top);
    } else {
      assert h[..0] == [];
    }
  }

  lemma NewestStep(h: seq<HistoryEntry>, log: seq<HistoryEntry>, e: HistoryEntry)
    requires Newest(h, log)
    ensures Newest(Record(h, e), log + [e])
  {
    if h != [] {
      MaxSequenceFirst(h, |log|);
    }
    assert NextSequence(h) == |log| + 1;
    var r, l := Record(h, e), log + [e];
    forall i | 0 <= i < |r| ensures r[i] == l[|l| - 1 - i].(sequence := |l| - i) {
      if i > 0 {
        assert r[i] == h[i - 1];
        assert l[|l| - 1 - i] == log[|log| - 1 - (i - 1)];
      }
    }
  }

  /** However long the log, the stored history is its newest ten entries, newest first,
      with consecutive sequence numbers that count every entry ever recorded. */
  lemma {:induction false} HistoryKeepsNewest(log: seq<HistoryEntry>)
    ensures Newest(RecordAll(log), log)
  {
    if log != [] {
      var n := |log| - 1;
      HistoryKeepsNewest(log[..n]);
      NewestStep(RecordAll(log[..n]), log[..n], log[n]);
      assert log == log[..n] + [log[n]];
    }
  }

  /** A status updated in place, as the helpers of the package do through pointers. */
  class Subject {
    var st: Status

    constructor (st: Status)
      ensures this.st == st
    {
      this.st := st;
    }

    method SetCondition(t: ConditionType, s: ConditionStatus, reason: string)
      modifies this
      ensures st == Set(old(st), t, s, reason)
    {
      st := st.(conditions := Placed(st.conditions, t, Some(Condition(s, reason))));
    }

    method DeleteCondition(t: ConditionType)
      modifies this
      ensures st == Unset(old(st), t)
    {
      st := st.(conditions := Placed(st.conditions, t, None));
    }

    method Reconcile(reason: string)
      modifies this
      ensures st == MarkReconciling(old(st), reason)
    {
      DeleteCondition(Stalled);
      SetCondition(Reconciling, True, reason);
      SetCondition(Ready, Unknown, reason);
    }

    method Stall(reason: string)
      modifies this
      ensures st == MarkStalled(old(st), reason)
    {
      DeleteCondition(Reconciling);
      SetCondition(Stalled, True, reason);
      SetCondition(Ready, False, reason);
    }

    method Succeed()
      modifies this
      ensures st == MarkReady(old(st))
    {
      DeleteCondition(Reconciling);
      DeleteCondition(Stalled);
      SetCondition(Ready, True, SUCCEEDED);
    }

    method Suspend()
      modifies this
      ensures st == MarkSuspended(old(st))
    {
      DeleteCondition(Reconciling);
      DeleteCondition(Stalled);
      SetCondition(Ready, False, SUSPENDED);
    }

    method Fail(reason: string)
      modifies this
      ensures st == MarkNotReady(old(st), reason)
    {
      SetCondition(Ready, False, reason);
    }

    /** ensureCountersField: a missing field becomes zeros, nothing else changes. */
    method EnsureCounters()
      modifies this
      ensures st == old(st).(counters := Some(CountersOf(old(st))))
    {
      if st.counters.None? {
        st := st.(counters := Some(Counters(0, 0, 0, 0)));
      }
    }

    method IncrementCounter(f: Counter)
      requires st.counters.Some?
      modifies this
      ensures st == old(st).(counters := Some(Bump(old(st).counters.value, f)))
    {
      st := st.(counters := Some(Bump(st.counters.value, f)));
    }

    method ResetCounter(f: Counter)
      requires st.counters.Some?
      modifies this
      ensures st == old(st).(counters := Some(Zero(old(st).counters.value, f)))
    {
      st := st.(counters := Some(Zero(st.counters.value, f)));
    }

    /** nextSequence: the loop on the maximum. */
    method ComputeNextSequence() returns (next: nat)
      ensures next == NextSequence(st.history)
    {
      if |st.history| == 0 {
        return 1;
      }
      var max := 0;
      for i := 0 to |st.history|
        invariant max == MaxSequence(st.history[..i])
      {
        if st.history[i].sequence > max {
          max := st.history[i].sequence;
        }
        assert st.history[..i + 1][..i] == st.history[..i];
      }
      assert st.history[..|st.history|] == st.history;
      return max + 1;
    }

    method RecordHistory(entry: HistoryEntry)
      modifies this
      ensures st == old(st).(history := Record(old(st).history, entry))
    {
      var next := ComputeNextSequence();
      var history := [entry.(sequence := next)] + st.history;
      if |history| > MAX_HISTORY {
        history := history[..MAX_HISTORY];
      }
      st := st.(history := history);
    }
  }
}
