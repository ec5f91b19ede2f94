/** The pair lists of a match plan, read off Go maps in any order, the execution of the matched pairs
    (pkg/render/match.go, pkg/render/execute.go, pkg/render/module_renderer.go), and what the two
    renderers of the reconcile loops make of the result (internal/render). */
module Render {
  import opened Ordering
  import opened Json
  import opened Digests
  import opened Inventory
  import opened Match
  import opened MatchFacts

  datatype Pair = Pair(component: string, transformer: string)
  datatype NonMatchedPair = NonMatchedPair(pair: Pair, result: MatchResult)

  function PairKey(p: Pair): seq<string> {
    [p.component, p.transformer]
  }

  predicate Planned(plan: MatchPlan, x: string, y: string, matched: bool) {
    x in plan.matches && y in plan.matches[x] && plan.matches[x][y].matched == matched
  }

  ghost predicate Holds(pairs: seq<Pair>, plan: MatchPlan, matched: bool) {
    forall x, y :: Pair(x, y) in pairs <==> Planned(plan, x, y, matched)
  }

  /** All matched (or all non-matched) pairs of the plan, each once, by component and then transformer. */
  ghost predicate ListsPairs(pairs: seq<Pair>, plan: MatchPlan, matched: bool) {
    StrictlySorted(pairs, PairKey) && Holds(pairs, plan, matched)
  }

  lemma AppendDistinct(pairs: seq<Pair>, p: Pair)
    requires DistinctKeys(pairs, PairKey) && p !in pairs
    ensures DistinctKeys(pairs + [p], PairKey)
  {
    var all := pairs + [p];
    forall i, j | 0 <= i < j < |all| ensures PairKey(all[i]) != PairKey(all[j]) {
      if j == |pairs| {
        assert all[i] in pairs;
        assert PairKey(all[i])[0] == all[i].component && PairKey(all[i])[1] == all[i].transformer;
        assert PairKey(p)[0] == p.component && PairKey(p)[1] == p.transformer;
      }
    }
  }

  /** The nested loops over the two levels of maps, in an arbitrary order. */
  method Collect(plan: MatchPlan, matched: bool) returns (pairs: seq<Pair>)
    ensures DistinctKeys(pairs, PairKey) && Holds(pairs, plan, matched)
  {
    pairs := [];
    var names := plan.matches.Keys;
    while names != {}
      invariant names <= plan.matches.Keys && DistinctKeys(pairs, PairKey)
      invariant forall x, y :: Pair(x, y) in pairs <==> x !in names && Planned(plan, x, y, matched)
      decreases |names|
    {
      var x :| x in names;
      pairs := CollectRow(plan, matched, names, x, pairs);
      names := names - {x};
    }
  }

  method CollectRow(plan: MatchPlan, matched: bool, ghost names: set<string>, x: string, before: seq<Pair>)
    returns (pairs: seq<Pair>)
    requires x in names && names <= plan.matches.Keys && DistinctKeys(before, PairKey)
    requires forall a, b :: Pair(a, b) in before <==> a !in names && Planned(plan, a, b, matched)
    ensures DistinctKeys(pairs, PairKey)
    ensures forall a, b :: Pair(a, b) in pairs <==> a !in names - {x} && Planned(plan, a, b, matched)
  {
    pairs := before;
    var row := plan.matches[x];
    var fqns := row.Keys;
    while fqns != {}
      invariant fqns <= row.Keys && DistinctKeys(pairs, PairKey)
      invariant forall a, b :: Pair(a, b) in pairs <==>
                  Planned(plan, a, b, matched) && (a !in names || (a == x && b !in fqns))
      decreases |fqns|
    {
      var y :| y in fqns;
      if row[y].matched == matched {
        AppendDistinct(pairs, Pair(x, y));
        pairs := pairs + [Pair(x, y)];
      }
      fqns := fqns - {y};
    }
  }

  lemma SortLists(pairs: seq<Pair>, plan: MatchPlan, matched: bool)
    requires DistinctKeys(pairs, PairKey) && Holds(pairs, plan, matched)
    ensures ListsPairs(StableSort(pairs, PairKey), plan, matched)
  {
    SortStrict(pairs, PairKey);
    var sorted := StableSort(pairs, PairKey);
    forall x, y ensures Pair(x, y) in sorted <==> Planned(plan, x, y, matched) {
      assert Pair(x, y) in sorted <==> Pair(x, y) in pairs;
    }
  }

  method MatchedPairs(plan: MatchPlan) returns (pairs: seq<Pair>)
    ensures ListsPairs(pairs, plan, true)
  {
    pairs := Collect(plan, true);
    SortLists(pairs, plan, true);
    pairs := StableSort(pairs, PairKey);
  }

  method NonMatchedPairs(plan: MatchPlan) returns (pairs: seq<NonMatchedPair>)
    ensures ListsPairs(seq(|pairs|, i requires 0 <= i < |pairs| => pairs[i].pair), plan, false)
    ensures forall p :: p in pairs ==>
              && p.pair.component in plan.matches && p.pair.transformer in plan.matches[p.pair.component]
              && p.result == plan.matches[p.pair.component][p.pair.transformer]
  {
    var found := Collect(plan, false);
    SortLists(found, plan, false);
    found := StableSort(found, PairKey);
    forall i | 0 <= i < |found| ensures Planned(plan, found[i].component, found[i].transformer, false) {
      assert Pair(found[i].component, found[i].transformer) in found;
    }
    pairs := seq(|found|, i requires 0 <= i < |found| =>
      NonMatchedPair(found[i], plan.matches[found[i].component][found[i].transformer]));
    assert seq(|pairs|, i requires 0 <= i < |pairs| => pairs[i].pair) == found;
  }

  /** Whatever order the maps are read in, the list is the same. */
  lemma PairListUnique(a: seq<Pair>, b: seq<Pair>, plan: MatchPlan, matched: bool)
    requires ListsPairs(a, plan, matched) && ListsPairs(b, plan, matched)
    ensures a == b
  {
    forall p ensures p in a <==> p in b {
      assert p == Pair(p.component, p.transformer);
    }
    StrictUnique(a, b, PairKey);
  }

  ghost predicate Named(cs: seq<Component>, ts: seq<Transformer>, p: Pair) {
    exists c, t :: c in cs && t in ts && c.name == p.component && t.fqn == p.transformer
  }

  /** For every component and transformer of a module and a provider, exactly one of the two lists holds
      the pair; it is the first exactly when the transformer matches, and neither holds anything else. */
  lemma PairsPartition(cs: Components, ts: Transformers, yes: seq<Pair>, no: seq<Pair>)
    requires var plan := Matched(Module(cs), Provider(ts)).value;
             ListsPairs(yes, plan, true) && ListsPairs(no, plan, false)
    ensures forall c, t :: c in cs && t in ts ==>
              && (Pair(c.name, t.fqn) in yes <==> MatchOf(c, t).matched)
              && (Pair(c.name, t.fqn) in no <==> !MatchOf(c, t).matched)
    ensures forall p :: p in yes || p in no ==> Named(cs, ts, p)
  {
    hide MatchOf, PlanOf;
    forall c, t | c in cs && t in ts
      ensures Pair(c.name, t.fqn) in yes <==> MatchOf(c, t).matched
      ensures Pair(c.name, t.fqn) in no <==> !MatchOf(c, t).matched
    {
      PlanExactly(cs, ts, c.name, t.fqn);
    }
    forall p | p in yes || p in no ensures Named(cs, ts, p) {
      assert p == Pair(p.component, p.transformer);
      PlanExactly(cs, ts, p.component, p.transformer);
    }
  }

  /** Matcher correctness: with label keys that cannot be confused, the list of matched pairs holds
      exactly the components and transformers whose required labels, resources and traits are all there. */
  lemma MatcherCorrect(cs: Components, ts: Transformers, pairs: seq<Pair>, c: Component, t: Transformer)
    requires ListsPairs(pairs, Matched(Module(cs), Provider(ts)).value, true)
    requires c in cs && t in ts && Unambiguous(c, t)
    ensures Pair(c.name, t.fqn) in pairs <==> Fits(c, t)
  {
    hide MatchOf, PlanOf, Fits, Unambiguous;
    PlanExactly(cs, ts, c.name, t.fqn);
    MatchMeansFits(c, t);
  }

  // Execution

  datatype PairResult = PairError | PairResources(resources: seq<Resource>)
  datatype ExecutionError = Cancelled | PairFailed(pair: Pair)

  function Concatenated(pairs: seq<Pair>, exec: Pair -> PairResult): seq<Resource> {
    if pairs == [] then []
    else
      var n := |pairs| - 1;
      Concatenated(pairs[..n], exec) + match exec(pairs[n]) case PairResources(rs) => rs case PairError => []
  }

  function Failures(pairs: seq<Pair>, exec: Pair -> PairResult): seq<ExecutionError> {
    if pairs == [] then []
    else
      var n := |pairs| - 1;
      Failures(pairs[..n], exec) + if exec(pairs[n]).PairError? then [PairFailed(pairs[n])] else []
  }

  /** What a pair gave: nothing if it failed. */
  function Given(exec: Pair -> PairResult, p: Pair): seq<Resource> {
    if exec(p).PairResources? then exec(p).resources else []
  }

  ghost predicate PieceAt(resources: seq<Resource>, pairs: seq<Pair>, exec: Pair -> PairResult, cuts: seq<nat>, i: nat)
    requires i < |pairs| && |cuts| == |pairs| + 1
  {
    cuts[i] <= cuts[i + 1] <= |resources| && resources[cuts[i]..cuts[i + 1]] == Given(exec, pairs[i])
  }

  /** Cut at these places, the resources are what the pairs gave: in order, nothing missing, nothing else. */
  ghost predicate CutAt(resources: seq<Resource>, pairs: seq<Pair>, exec: Pair -> PairResult, cuts: seq<nat>) {
    && |cuts| == |pairs| + 1 && cuts[0] == 0 && cuts[|pairs|] == |resources|
    && forall i :: 0 <= i < |pairs| ==> PieceAt(resources, pairs, exec, cuts, i)
  }

  ghost predicate InOrder(resources: seq<Resource>, pairs: seq<Pair>, exec: Pair -> PairResult) {
    exists cuts :: CutAt(resources, pairs, exec, cuts)
  }

  lemma NothingInOrder(exec: Pair -> PairResult)
    ensures InOrder([], [], exec)
  {
    assert CutAt([], [], exec, [0]);
  }

  lemma CutNext(resources: seq<Resource>, pairs: seq<Pair>, exec: Pair -> PairResult)
    requires pairs != [] && InOrder(resources, pairs[..|pairs| - 1], exec)
    ensures InOrder(resources + Given(exec, pairs[|pairs| - 1]), pairs, exec)
  {
    hide Given;
    var n := |pairs| - 1;
    var rs := Given(exec, pairs[n]);
    var cuts :| CutAt(resources, pairs[..n], exec, cuts);
    var all, end: nat := resources + rs, |resources| + |rs|;
    var more := cuts + [end];
    forall i | 0 <= i < |pairs| ensures PieceAt(all, pairs, exec, more, i) {
      if i < n {
        assert PieceAt(resources, pairs[..n], exec, cuts, i);
        assert all[more[i]..more[i + 1]] == resources[cuts[i]..cuts[i + 1]];
      } else {
        assert all[|resources|..] == rs;
      }
    }
    assert CutAt(all, pairs, exec, more);
  }

  lemma {:induction false} ConcatenatedInOrder(pairs: seq<Pair>, exec: Pair -> PairResult)
    ensures InOrder(Concatenated(pairs, exec), pairs, exec)
  {
    hide InOrder;
    if pairs == [] {
      NothingInOrder(exec);
    } else {
      ConcatenatedInOrder(pairs[..|pairs| - 1], exec);
      CutNext(Concatenated(pairs[..|pairs| - 1], exec), pairs, exec);
    }
  }

  lemma PlaceInPiece(resources: seq<Resource>, pairs: seq<Pair>, exec: Pair -> PairResult, cuts: seq<nat>, k: nat)
    requires CutAt(resources, pairs, exec, cuts) && k < |resources|
    ensures exists p :: p in pairs && resources[k] in Given(exec, p)
  {
    hide Given;
    var i := Covering(cuts, k);
    assert PieceAt(resources, pairs, exec, cuts, i);
    assert resources[cuts[i]..cuts[i + 1]][k - cuts[i]] == resources[k];
    assert pairs[i] in pairs;
  }

  lemma PieceInPlace(resources: seq<Resource>, pairs: seq<Pair>, exec: Pair -> PairResult, cuts: seq<nat>, i: nat,
                     x: Resource)
    requires CutAt(resources, pairs, exec, cuts) && i < |pairs| && x in Given(exec, pairs[i])
    ensures x in resources
  {
    hide Given;
    assert PieceAt(resources, pairs, exec, cuts, i);
    var j :| 0 <= j < |Given(exec, pairs[i])| && Given(exec, pairs[i])[j] == x;
    assert resources[cuts[i]..cuts[i + 1]][j] == resources[cuts[i] + j];
  }

  /** Such resources hold exactly what the pairs gave. */
  lemma InOrderMembers(resources: seq<Resource>, pairs: seq<Pair>, exec: Pair -> PairResult, x: Resource)
    requires InOrder(resources, pairs, exec)
    ensures x in resources <==> exists p :: p in pairs && x in Given(exec, p)
  {
    hide Given, CutAt;
    var cuts :| CutAt(resources, pairs, exec, cuts);
    if x in resources {
      var k :| 0 <= k < |resources| && resources[k] == x;
      PlaceInPiece(resources, pairs, exec, cuts, k);
    }
    forall p | p in pairs && x in Given(exec, p) ensures x in resources {
      var i :| 0 <= i < |pairs| && pairs[i] == p;
      PieceInPlace(resources, pairs, exec, cuts, i, x);
    }
  }

  /** The piece a place lies in. */
  lemma {:induction false} Covering(cuts: seq<nat>, k: nat) returns (i: nat)
    requires |cuts| > 0 && cuts[0] == 0 && k < cuts[|cuts| - 1]
    ensures i < |cuts| - 1 && cuts[i] <= k < cuts[i + 1]
  {
    var n := |cuts| - 2;
    if cuts[n] <= k {
      i := n;
    } else {
      i := Covering(cuts[..n + 1], k);
    }
  }

  /** The errors name exactly the pairs that failed, in order. */
  lemma {:induction false} FailuresExactly(pairs: seq<Pair>, exec: Pair -> PairResult, p: Pair)
    ensures PairFailed(p) in Failures(pairs, exec) <==> p in pairs && exec(p).PairError?
    ensures Cancelled !in Failures(pairs, exec)
  {
    if pairs != [] {
      var n := |pairs| - 1;
      FailuresExactly(pairs[..n], exec, p);
      assert pairs == pairs[..n] + [pairs[n]];
    }
  }

  /** How many pairs are executed before the context is seen cancelled. */
  function Reached(n: nat, cancelled: nat -> bool): (k: nat)
    ensures k <= n && (k < n ==> cancelled(k)) && forall i :: 0 <= i < k ==> !cancelled(i)
  {
    if n == 0 then 0
    else
      var k := Reached(n - 1, cancelled);
      if k < n - 1 || cancelled(n - 1) then k else n
  }

  /** executeTransforms: in order, collecting errors, stopping at a cancellation. */
  method ExecuteTransforms(pairs: seq<Pair>, exec: Pair -> PairResult, cancelled: nat -> bool)
    returns (resources: seq<Resource>, errs: seq<ExecutionError>)
    ensures var k := Reached(|pairs|, cancelled);
            && resources == Concatenated(pairs[..k], exec)
            && errs == Failures(pairs[..k], exec) + (if k < |pairs| then [Cancelled] else [])
            && InOrder(resources, pairs[..k], exec)
  {
    hide InOrder;
    resources, errs := [], [];
    NothingInOrder(exec);
    ghost var k := Reached(|pairs|, cancelled);
    for i := 0 to |pairs|
      invariant i <= k
      invariant resources == Concatenated(pairs[..i], exec) && errs == Failures(pairs[..i], exec)
      invariant InOrder(resources, pairs[..i], exec)
    {
      if cancelled(i) {
        return resources, errs + [Cancelled];
      }
      assert pairs[..i + 1][..i] == pairs[..i];
      match exec(pairs[i]) {
        case PairError =>
          CutNext(resources, pairs[..i + 1], exec);
          assert resources + [] == resources;
          errs := errs + [PairFailed(pairs[i])];
        case PairResources(rs) =>
          CutNext(resources, pairs[..i + 1], exec);
          resources := resources + rs;
      }
    }
  }

  /** What Execute returns for the plan's list of matched pairs; None for an error. */
  function Executed(plan: Option<MatchPlan>, pairs: seq<Pair>, exec: Pair -> PairResult, cancelled: nat -> bool)
    : Option<seq<Resource>>
  {
    if plan.None? || |plan.value.unmatched| > 0 || Reached(|pairs|, cancelled) < |pairs| || Failures(pairs, exec) != []
    then None
    else Some(Concatenated(pairs, exec))
  }

  method Execute(plan: Option<MatchPlan>, exec: Pair -> PairResult, cancelled: nat -> bool)
    returns (r: Option<seq<Resource>>)
    ensures plan.None? ==> r == None
    ensures plan.Some? ==>
              forall pairs :: ListsPairs(pairs, plan.value, true) ==> r == Executed(plan, pairs, exec, cancelled)
    ensures r.Some? ==>
              forall pairs :: ListsPairs(pairs, plan.value, true) ==> InOrder(r.value, pairs, exec)
  {
    if plan.None? {
      return None;
    }
    if |plan.value.unmatched| > 0 {
      return None;
    }
    var list := MatchedPairs(plan.value);
    forall pairs | ListsPairs(pairs, plan.value, true) ensures pairs == list {
      PairListUnique(pairs, list, plan.value, true);
    }
    var resources, errs := ExecuteTransforms(list, exec, cancelled);
    assert list[..|list|] == list;
    if |errs| > 0 {
      return None;
    }
    return Some(resources);
  }

  lemma {:induction false} FailuresHold(pairs: seq<Pair>, exec: Pair -> PairResult)
    ensures Failures(pairs, exec) == [] <==> forall p :: p in pairs ==> exec(p).PairResources?
  {
    if pairs != [] {
      var n := |pairs| - 1;
      FailuresHold(pairs[..n], exec);
      assert pairs == pairs[..n] + [pairs[n]];
    }
  }

  /** Some transformer matches the component. */
  ghost predicate Renderable(c: Component, ts: seq<Transformer>) {
    exists t :: t in ts && MatchOf(c, t).matched
  }

  /** All or nothing: with a provider that has transformers, rendering a module succeeds exactly when
      every component has a matching transformer, every matching pair executes and nothing cancels. */
  lemma RenderingExactly(cs: Components, ts: Transformers, pairs: seq<Pair>, exec: Pair -> PairResult,
                         cancelled: nat -> bool)
    requires ListsPairs(pairs, Matched(Module(cs), Provider(ts)).value, true)
    ensures Executed(Matched(Module(cs), Provider(ts)), pairs, exec, cancelled).Some? <==>
            && (forall c :: c in cs ==> Renderable(c, ts))
            && (forall c, t :: c in cs && t in ts && MatchOf(c, t).matched ==> exec(Pair(c.name, t.fqn)).PairResources?)
            && (forall i :: 0 <= i < |pairs| ==> !cancelled(i))
  {
    hide MatchOf, PlanOf, Failures;
    NoneUnmatched(cs, ts);
    FailuresHold(pairs, exec);
    PairsAre(cs, ts, pairs, exec);
  }

  lemma NoneUnmatched(cs: Components, ts: Transformers)
    ensures |Matched(Module(cs), Provider(ts)).value.unmatched| == 0 <==> forall c :: c in cs ==> Renderable(c, ts)
  {
    hide MatchOf, PlanOf, SortStrings;
    var unmatched := Matched(Module(cs), Provider(ts)).value.unmatched;
    if |unmatched| == 0 {
      forall c | c in cs ensures Renderable(c, ts) {
        UnmatchedExactly(cs, ts, c.name);
      }
    } else {
      UnmatchedExactly(cs, ts, unmatched[0]);
      assert unmatched[0] in unmatched;
    }
  }

  lemma PairsAre(cs: Components, ts: Transformers, pairs: seq<Pair>, exec: Pair -> PairResult)
    requires ListsPairs(pairs, Matched(Module(cs), Provider(ts)).value, true)
    ensures (forall p :: p in pairs ==> exec(p).PairResources?) <==>
            (forall c, t :: c in cs && t in ts && MatchOf(c, t).matched ==> exec(Pair(c.name, t.fqn)).PairResources?)
  {
    hide MatchOf, PlanOf;
    forall c, t | c in cs && t in ts ensures Pair(c.name, t.fqn) in pairs <==> MatchOf(c, t).matched {
      PlanExactly(cs, ts, c.name, t.fqn);
    }
    forall p | p in pairs
      ensures exists c, t :: c in cs && t in ts && MatchOf(c, t).matched && p == Pair(c.name, t.fqn)
    {
      assert p == Pair(p.component, p.transformer);
      PlanExactly(cs, ts, p.component, p.transformer);
      var c, t :| c in cs && t in ts && c.name == p.component && t.fqn == p.transformer;
    }
  }

  lemma EmptyPlanNoPairs(pairs: seq<Pair>)
    requires ListsPairs(pairs, EMPTY_PLAN, true)
    ensures pairs == []
  {
    PairListUnique(pairs, [], EMPTY_PLAN, true);
  }

  /** A successful rendering covers every component exactly when the provider has transformers or there
      is nothing to render: without #transformers nothing is matched, nothing is unmatched, and the
      result is a success without resources. */
  lemma SuccessCoversComponents(m: Module, p: Provider, pairs: seq<Pair>, exec: Pair -> PairResult,
                                cancelled: nat -> bool)
    requires m.Module? && Matched(m, p).Some? && ListsPairs(pairs, Matched(m, p).value, true)
    requires Executed(Matched(m, p), pairs, exec, cancelled).Some?
    ensures (forall c :: c in m.components ==> exists y :: Pair(c.name, y) in pairs) <==>
            p.Provider? || m.components == []
    ensures !p.Provider? ==> Executed(Matched(m, p), pairs, exec, cancelled) == Some([])
  {
    hide MatchOf, PlanOf;
    if p.Provider? {
      NoneUnmatched(m.components, p.transformers);
      forall c | c in m.components ensures exists y :: Pair(c.name, y) in pairs {
        assert Renderable(c, p.transformers);
        var t :| t in p.transformers && MatchOf(c, t).matched;
        PlanExactly(m.components, p.transformers, c.name, t.fqn);
        assert Pair(c.name, t.fqn) in pairs;
      }
    } else {
      EmptyPlanNoPairs(pairs);
      if m.components != [] {
        assert m.components[0] in m.components;
      }
    }
  }

  // The renderers of the reconcile loops

  /** An empty rendering is an error, and so is a resource without an inventory entry. */
  function Gated(r: Option<seq<Resource>>): Option<seq<Resource>> {
    if r.None? || r.value == [] || !Convertible(r.value) then None else r
  }

  /** Match, execute, reject an empty result, build the inventory entries. */
  method RenderResources(m: Module, p: Provider, exec: Pair -> PairResult, cancelled: nat -> bool)
    returns (r: Option<seq<Resource>>)
    ensures Matched(m, p).None? ==> r == None
    ensures Matched(m, p).Some? ==>
              forall pairs :: ListsPairs(pairs, Matched(m, p).value, true) ==>
                r == Gated(Executed(Matched(m, p), pairs, exec, cancelled))
    ensures r.Some? ==> r.value != []
    ensures r.Some? ==>
              forall pairs :: ListsPairs(pairs, Matched(m, p).value, true) ==> InOrder(r.value, pairs, exec)
  {
    hide ListsPairs, Executed;
    var plan := Match.Match(m, p);
    if plan.None? {
      return None;
    }
    r := Execute(plan, exec, cancelled);
    if r.None? || |r.value| == 0 {
      return None;
    }
    var entries := BuildInventoryEntries(r.value);
    if entries.None? {
      return None;
    }
  }

  /** What the reconcile loops get to see is complete: every component has a matched pair, every matched
      pair was executed, and the resources are exactly those of the matched pairs, in their order. */
  lemma LoopsSeeEverything(m: Module, p: Provider, pairs: seq<Pair>, exec: Pair -> PairResult, cancelled: nat -> bool)
    requires m.Module? && Matched(m, p).Some? && ListsPairs(pairs, Matched(m, p).value, true)
    ensures var r := Gated(Executed(Matched(m, p), pairs, exec, cancelled));
            r.Some? ==>
              && (forall c :: c in m.components ==> exists y :: Pair(c.name, y) in pairs)
              && (forall x :: x in pairs ==> exec(x).PairResources?)
              && InOrder(r.value, pairs, exec)
              && (forall y :: y in r.value <==> exists x :: x in pairs && y in Given(exec, x))
  {
    hide MatchOf, PlanOf, ListsPairs, InOrder;
    var r := Gated(Executed(Matched(m, p), pairs, exec, cancelled));
    if r.Some? {
      SuccessCoversComponents(m, p, pairs, exec, cancelled);
      FailuresHold(pairs, exec);
      ConcatenatedInOrder(pairs, exec);
      forall y ensures y in r.value <==> exists x :: x in pairs && y in Given(exec, x) {
        InOrderMembers(r.value, pairs, exec, y);
      }
    }
  }
}
