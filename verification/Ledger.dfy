/** The status ledger over a run, for either kind of release: what the stored commits amount to,
    and how every step of a run keeps inventory, digests, history and counters in line with them. */
module Ledger {
  import opened Json
  import opened Digests
  import opened Inventory
  import opened Cluster
  import opened Prune
  import opened Status
  import opened Reconcile

  /** The phases leave inventory, digests, history and counters to the commit. */
  ghost predicate LedgerKept(a: Status, st: Status) {
    a.inventory == st.inventory && a.lastApplied == st.lastApplied && a.lastAttempted == st.lastAttempted &&
    a.history == st.history && a.counters == st.counters
  }

  /** The success flag goes with the two success outcomes. */
  ghost predicate Sound(v: Verdict) {
    v.reconciled <==> v.outcome == Applied || v.outcome == AppliedAndPruned
  }

  /** Each outcome fixes its condition triple. */
  ghost predicate Triple(cs: Conditions, o: Outcome) {
    && cs.ready.Some?
    && match o
       case NoOp | Applied | AppliedAndPruned =>
         cs.ready.value == Condition(True, SUCCEEDED) && cs.reconciling.None? && cs.stalled.None?
       case FailedTransient =>
         cs.ready.value.status == False && cs.stalled.None? &&
         cs.reconciling.Some? && cs.reconciling.value.status == True
       case FailedStalled =>
         cs.ready.value.status == False && cs.reconciling.None? &&
         cs.stalled.Some? && cs.stalled.value.status == True
  }

  /** Reconciling is set and Stalled is not, as MarkReconciling leaves it. */
  ghost predicate InProgress(st: Status) {
    && st.conditions.reconciling.Some? && st.conditions.reconciling.value.status == True
    && st.conditions.stalled.None?
  }

  lemma RecordedConditions(st: Status, v: Verdict)
    ensures Recorded(st, v).conditions == st.conditions
  {
  }

  /** A failure with a delay leaves a retry time, anything else clears it. */
  lemma CommitSchedules(st: Status, v: Verdict)
    requires Failing(v.outcome) <==> v.retryAfter > 0
    ensures Commit(st, v).nextRetry == if Failing(v.outcome) then Some(v.retryAfter) else None
  {
    hide ComputeDigest, Record, Recorded;
  }

  /** A commit keeps the conditions of a failure or a success, and makes a no-op Ready. */
  lemma CommitConditions(st: Status, v: Verdict)
    requires v.outcome != NoOp ==> Triple(st.conditions, v.outcome)
    ensures Triple(Commit(st, v).conditions, v.outcome)
  {
    hide ComputeDigest, Record, Recorded;
    RecordedConditions(st, v);
  }

  // What the commits of a run amount to

  function Successes<E>(cs: seq<(Verdict, E)>): nat {
    if cs == [] then 0 else Successes(cs[..|cs| - 1]) + (if cs[|cs| - 1].0.reconciled then 1 else 0)
  }

  function LastSuccess<E>(cs: seq<(Verdict, E)>): Option<(Verdict, E)> {
    if cs == [] then None
    else if cs[|cs| - 1].0.reconciled then Some(cs[|cs| - 1])
    else LastSuccess(cs[..|cs| - 1])
  }

  lemma {:induction false} SuccessCounted<E>(cs: seq<(Verdict, E)>)
    ensures LastSuccess(cs).Some? <==> Successes(cs) > 0
  {
    if cs != [] {
      SuccessCounted(cs[..|cs| - 1]);
    }
  }

  /** The last commit that was not a no-op. */
  function LastAttempt<E>(cs: seq<(Verdict, E)>): Option<(Verdict, E)> {
    if cs == [] then None
    else if cs[|cs| - 1].0.outcome != NoOp then Some(cs[|cs| - 1])
    else LastAttempt(cs[..|cs| - 1])
  }

  function LogEntry(v: Verdict): seq<HistoryEntry> {
    if v.outcome == NoOp then []
    else if v.reconciled then [SuccessEntry(v)]
    else if v.errMsg != "" then [FailureEntry(v)]
    else []
  }

  /** Every history entry the commits ever recorded. */
  function Log<E>(cs: seq<(Verdict, E)>): seq<HistoryEntry> {
    if cs == [] then [] else Log(cs[..|cs| - 1]) + LogEntry(cs[|cs| - 1].0)
  }

  /** Whether each commit failed, over the commits in which the counter's phase ran. */
  function Flag(v: Verdict, f: Counter): seq<bool> {
    match f
    case ReconcileCounter => [Failing(v.outcome)]
    case ApplyCounter => if v.phases.applyRan then [v.phases.applyFailed] else []
    case PruneCounter => if v.phases.pruneRan then [v.phases.pruneFailed] else []
    case DriftCounter => if v.phases.driftRan then [v.phases.driftFailed] else []
  }

  function Flags<E>(cs: seq<(Verdict, E)>, f: Counter): seq<bool> {
    if cs == [] then [] else Flags(cs[..|cs| - 1], f) + Flag(cs[|cs| - 1].0, f)
  }

  /** `n` is the length of the run of failures `s` ends with. */
  ghost predicate IsStreak(s: seq<bool>, n: nat) {
    && n <= |s|
    && (forall i :: |s| - n <= i < |s| ==> s[i])
    && (n < |s| ==> !s[|s| - 1 - n])
  }

  function CounterOf(c: Counters, f: Counter): nat {
    match f
    case ReconcileCounter => c.reconcile
    case ApplyCounter => c.apply
    case PruneCounter => c.prune
    case DriftCounter => c.drift
  }

  lemma StreakStep(s: seq<bool>, n: nat, t: seq<bool>)
    requires IsStreak(s, n) && |t| <= 1
    ensures IsStreak(s + t, if t == [] then n else if t[0] then n + 1 else 0)
  {
    if t == [] {
      assert s + t == s;
    }
  }

  // The invariant

  ghost predicate LedgerHolds<S, E>(r: Release<S>, cs: seq<(Verdict, E)>) {
    var st := r.status;
    && (st.inventory.Some? ==>
          var i := st.inventory.value;
          && i.digest == ComputeDigest(i.entries) && i.count == |i.entries| && i.revision == Successes(cs)
          && LastSuccess(cs).Some? && i.entries == LastSuccess(cs).value.0.entries)
    && (st.inventory.None? && !r.deleting ==> Successes(cs) == 0)
    && st.lastApplied == (match LastSuccess(cs)
                          case Some(c) => c.0.digests.(inventory := NoDigest)
                          case None => NO_DIGESTS)
    && st.lastAttempted == (match LastAttempt(cs)
                            case Some(c) => c.0.digests.(inventory := NoDigest)
                            case None => NO_DIGESTS)
    && st.history == RecordAll(Log(cs))
  }

  ghost predicate CountersHold<S, E>(r: Release<S>, cs: seq<(Verdict, E)>) {
    forall f: Counter :: IsStreak(Flags(cs, f), CounterOf(CountersOf(r.status), f))
  }

  lemma CommitFields(st: Status, v: Verdict)
    requires v.reconciled ==> v.outcome != NoOp
    ensures var s := Commit(st, v);
            && s.inventory == (if v.reconciled then Some(NextInventory(st, v.entries)) else st.inventory)
            && s.lastApplied == (if v.reconciled then v.digests.(inventory := NoDigest) else st.lastApplied)
            && s.lastAttempted == (if v.outcome != NoOp then v.digests.(inventory := NoDigest) else st.lastAttempted)
            && s.history == (if LogEntry(v) == [] then st.history else Record(st.history, LogEntry(v)[0]))
  {
    hide ComputeDigest, Record;
  }

  /** A commit either records a success in ledger and log at once, or leaves the ledger alone. */
  lemma CommitKeepsLedger<S, E>(r: Release<S>, cs: seq<(Verdict, E)>, st: Status, v: Verdict, e: E)
    requires LedgerHolds(r, cs) && LedgerKept(st, r.status) && Sound(v) && !r.deleting
    ensures LedgerHolds(r.(status := Commit(st, v)), cs + [(v, e)])
  {
    hide ComputeDigest, Record, Commit, LogEntry;
    var all := cs + [(v, e)];
    assert all[..|cs|] == cs;
    LogStep(cs, v, e);
    CommitFields(st, v);
  }

  lemma RecordAllAppend(log: seq<HistoryEntry>, entry: HistoryEntry)
    ensures RecordAll(log + [entry]) == Record(RecordAll(log), entry)
  {
    hide Record;
    assert (log + [entry])[..|log|] == log;
  }

  lemma LogAppend<E>(cs: seq<(Verdict, E)>, v: Verdict, e: E)
    ensures Log(cs + [(v, e)]) == Log(cs) + LogEntry(v)
  {
    hide LogEntry;
    assert (cs + [(v, e)])[..|cs|] == cs;
  }

  lemma LogStep<E>(cs: seq<(Verdict, E)>, v: Verdict, e: E)
    ensures var all := cs + [(v, e)];
            RecordAll(Log(all)) == if LogEntry(v) == [] then RecordAll(Log(cs))
                                   else Record(RecordAll(Log(cs)), LogEntry(v)[0])
  {
    hide Record, RecordAll, Log;
    LogAppend(cs, v, e);
    if LogEntry(v) == [] {
      assert Log(cs) + [] == Log(cs);
    } else {
      RecordAllAppend(Log(cs), LogEntry(v)[0]);
      assert LogEntry(v) == [LogEntry(v)[0]];
    }
  }

  lemma CommitKeepsCounters<S, E>(r: Release<S>, cs: seq<(Verdict, E)>, st: Status, v: Verdict, e: E)
    requires CountersHold(r, cs) && LedgerKept(st, r.status)
    ensures CountersHold(r.(status := Commit(st, v)), cs + [(v, e)])
  {
    hide ComputeDigest, Record, Recorded;
    var all := cs + [(v, e)];
    assert all[..|cs|] == cs;
    forall f: Counter ensures IsStreak(Flags(all, f), CounterOf(CountersOf(Commit(st, v)), f)) {
      assert IsStreak(Flags(cs, f), CounterOf(CountersOf(r.status), f));
      StreakStep(Flags(cs, f), CounterOf(CountersOf(r.status), f), Flag(v, f));
      CommitCounts(r.status, st, v, f);
    }
  }

  lemma CommitCounts(old_: Status, st: Status, v: Verdict, f: Counter)
    requires LedgerKept(st, old_)
    ensures CounterOf(CountersOf(Commit(st, v)), f) ==
            var n := CounterOf(CountersOf(old_), f);
            if Flag(v, f) == [] then n else if Flag(v, f)[0] then n + 1 else 0
  {
    hide ComputeDigest, Record;
  }

  /** A step without a commit leaves the ledger alone; only a deletion may clear the inventory. */
  ghost predicate Untouched<S>(r': Release<S>, r: Release<S>) {
    && r'.status.lastApplied == r.status.lastApplied && r'.status.lastAttempted == r.status.lastAttempted
    && r'.status.history == r.status.history
    && r'.status.counters == r.status.counters && (r.deleting ==> r'.deleting)
    && (r'.status.inventory == r.status.inventory || (r'.deleting && r'.status.inventory.None?))
  }

  lemma UntouchedKeeps<S, E>(r': Release<S>, r: Release<S>, cs: seq<(Verdict, E)>)
    requires LedgerHolds(r, cs) && CountersHold(r, cs) && Untouched(r', r)
    ensures LedgerHolds(r', cs) && CountersHold(r', cs)
  {
  }

  /** Deletion never records anything. */
  lemma DeletionUntouched<S>(p: Params, prune: bool, sa: string, owner: string, r: Release<S>, c: State, e: DeletionEnv)
    requires r.deleting
    ensures var d := HandleDeletion(p, prune, sa, owner, r.annotations, r.status, c, e);
            Untouched(r.(status := d.status, finalizer := d.finalizer), r)
  {
    hide Pruned, Fates, Errors, IsForbidden;
  }

  lemma DeletionKeepsCoherent(p: Params, prune: bool, sa: string, owner: string, annotations: map<string, string>,
                              st: Status, c: State, e: DeletionEnv)
    requires Coherent(st)
    ensures Coherent(HandleDeletion(p, prune, sa, owner, annotations, st, c, e).status)
  {
    hide Pruned, Fates, Errors, IsForbidden;
  }
}
