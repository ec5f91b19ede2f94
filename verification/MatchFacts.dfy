/** What the match plan means: the pair lists, the warnings, and when the "key=value" comparison
    of labels says what it is meant to say. */
module MatchFacts {
  import opened Ordering
  import opened Json
  import opened Digests
  import opened Match

  // Lists

  lemma {:induction false} LabelsHold(fs: seq<Field>, optional: bool, x: string)
    ensures x in Labels(fs, optional) <==> exists f :: f in fs && f.key == x && (f.optional ==> optional)
  {
    if fs != [] {
      var n := |fs| - 1;
      LabelsHold(fs[..n], optional, x);
      assert fs == fs[..n] + [fs[n]];
    }
  }

  lemma {:induction false} PairsHold(fs: seq<Field>, x: string)
    ensures x in Pairs(fs) <==> exists f :: f in fs && f.text.Some? && Joined(f.key, '=', f.text.value) == x
  {
    if fs != [] {
      var n := |fs| - 1;
      PairsHold(fs[..n], x);
      assert fs == fs[..n] + [fs[n]];
    }
  }

  lemma {:induction false} WithoutHolds(xs: seq<string>, have: set<string>, x: string)
    ensures x in Without(xs, have) <==> x in xs && x !in have
  {
    if xs != [] {
      var n := |xs| - 1;
      WithoutHolds(xs[..n], have, x);
      assert xs == xs[..n] + [xs[n]];
    }
  }

  lemma SortHolds(xs: seq<string>)
    ensures forall x :: x in SortStrings(xs) <==> x in xs
    ensures |SortStrings(xs)| == |xs|
  {
    StableSortCorrect(xs, Alone);
    SameElements(SortStrings(xs), xs);
  }

  lemma NothingWithout(xs: seq<string>, have: set<string>)
    ensures |SortStrings(Without(xs, have))| == 0 <==> forall x :: x in xs ==> x in have
  {
    SortHolds(Without(xs, have));
    if Without(xs, have) == [] {
      forall x | x in xs ensures x in have {
        WithoutHolds(xs, have, x);
      }
    } else {
      WithoutHolds(xs, have, Without(xs, have)[0]);
    }
  }

  // What a match means

  predicate HasRegular(fs: seq<Field>, key: string) {
    exists f :: f in fs && f.key == key && !f.optional
  }

  predicate HasLabel(fs: seq<Field>, key: string, value: string) {
    exists f :: f in fs && f.key == key && f.text == Some(value)
  }

  /** Every required label with its value, every required resource and every required trait is there. */
  ghost predicate Fits(c: Component, t: Transformer) {
    && (forall f :: f in t.requiredLabels && f.text.Some? ==> HasLabel(c.labels, f.key, f.text.value))
    && (forall f :: f in t.requiredResources ==> HasRegular(c.resources, f.key))
    && (forall f :: f in t.requiredTraits ==> HasRegular(c.traits, f.key))
  }

  /** No required label key and component label key continue one another across a "=". */
  ghost predicate Unambiguous(c: Component, t: Transformer) {
    forall f, g :: f in t.requiredLabels && g in c.labels ==> !Extends(f.key, '=', g.key) && !Extends(g.key, '=', f.key)
  }

  lemma KeysCovered(required: seq<Field>, have: seq<Field>)
    ensures |SortStrings(Without(Labels(required, true), Elements(FieldKeys(have))))| == 0 <==>
            forall f :: f in required ==> HasRegular(have, f.key)
  {
    var xs, ys := Labels(required, true), Elements(FieldKeys(have));
    NothingWithout(xs, ys);
    forall x ensures x in ys <==> HasRegular(have, x) {
      SortHolds(Labels(have, false));
      LabelsHold(have, false, x);
    }
    if forall x :: x in xs ==> x in ys {
      forall f | f in required ensures HasRegular(have, f.key) {
        LabelsHold(required, true, f.key);
      }
    }
    if forall f :: f in required ==> HasRegular(have, f.key) {
      forall x | x in xs ensures x in ys {
        LabelsHold(required, true, x);
      }
    }
  }

  /** The texts of the required pairs are all among the component's. */
  ghost predicate TextsCovered(required: seq<Field>, have: seq<Field>) {
    forall f :: f in required && f.text.Some? ==> TextIn(have, Joined(f.key, '=', f.text.value))
  }

  ghost predicate TextIn(have: seq<Field>, x: string) {
    exists g :: g in have && g.text.Some? && Joined(g.key, '=', g.text.value) == x
  }

  lemma LabelsCovered(required: seq<Field>, have: seq<Field>)
    ensures |SortStrings(Without(Pairs(required), Elements(Pairs(have))))| == 0 <==> TextsCovered(required, have)
  {
    var xs, ys := Pairs(required), Elements(Pairs(have));
    NothingWithout(xs, ys);
    if forall x :: x in xs ==> x in ys {
      forall f | f in required && f.text.Some? ensures TextIn(have, Joined(f.key, '=', f.text.value)) {
        PairsHold(required, Joined(f.key, '=', f.text.value));
        PairsHold(have, Joined(f.key, '=', f.text.value));
      }
    }
    if TextsCovered(required, have) {
      forall x | x in xs ensures x in ys {
        PairsHold(required, x);
        PairsHold(have, x);
      }
    }
  }

  lemma MissingKeysExactly(required: seq<Field>, have: seq<Field>, x: string)
    ensures x in SortStrings(Without(Labels(required, true), Elements(FieldKeys(have)))) <==>
            (exists f :: f in required && f.key == x) && !HasRegular(have, x)
  {
    hide SortStrings, Without, Labels, HasRegular;
    var xs := Without(Labels(required, true), Elements(FieldKeys(have)));
    SortHolds(xs);
    WithoutHolds(Labels(required, true), Elements(FieldKeys(have)), x);
    LabelsHold(required, true, x);
    RegularKeys(have, x);
  }

  /** What a result says is missing, exactly: each list holds the required pairs, resources and traits the
      component lacks, in order. */
  lemma MissingExactly(c: Component, t: Transformer, x: string)
    ensures var r := MatchOf(c, t);
            && (x in r.missingLabels <==>
                  (exists f :: f in t.requiredLabels && f.text.Some? && Joined(f.key, '=', f.text.value) == x) &&
                  !TextIn(c.labels, x))
            && (x in r.missingResources <==>
                  (exists f :: f in t.requiredResources && f.key == x) && !HasRegular(c.resources, x))
            && (x in r.missingTraits <==> (exists f :: f in t.requiredTraits && f.key == x) && !HasRegular(c.traits, x))
            && Sorted(r.missingLabels, Alone) && Sorted(r.missingResources, Alone) && Sorted(r.missingTraits, Alone)
  {
    hide Without, Labels, Pairs, HasRegular, StableSort, FieldKeys, Joined;
    MissingKeysExactly(t.requiredResources, c.resources, x);
    MissingKeysExactly(t.requiredTraits, c.traits, x);
    var ls := Without(Pairs(t.requiredLabels), Elements(Pairs(c.labels)));
    SortHolds(ls);
    WithoutHolds(Pairs(t.requiredLabels), Elements(Pairs(c.labels)), x);
    PairsHold(t.requiredLabels, x);
    PairsHold(c.labels, x);
    StableSortCorrect(ls, Alone);
    StableSortCorrect(Without(Labels(t.requiredResources, true), Elements(FieldKeys(c.resources))), Alone);
    StableSortCorrect(Without(Labels(t.requiredTraits, true), Elements(FieldKeys(c.traits))), Alone);
  }

  /** A match never misses a fitting transformer, and means exactly Fits when no label keys are ambiguous. */
  lemma MatchMeansFits(c: Component, t: Transformer)
    ensures Fits(c, t) ==> MatchOf(c, t).matched
    ensures Unambiguous(c, t) ==> (MatchOf(c, t).matched <==> Fits(c, t))
  {
    hide SortStrings, Without, Labels, Pairs, FieldKeys;
    KeysCovered(t.requiredResources, c.resources);
    KeysCovered(t.requiredTraits, c.traits);
    LabelsCovered(t.requiredLabels, c.labels);
    forall f | f in t.requiredLabels && f.text.Some?
      ensures HasLabel(c.labels, f.key, f.text.value) ==> TextIn(c.labels, Joined(f.key, '=', f.text.value))
      ensures Unambiguous(c, t) && TextIn(c.labels, Joined(f.key, '=', f.text.value)) ==>
                HasLabel(c.labels, f.key, f.text.value)
    {
      if Unambiguous(c, t) && TextIn(c.labels, Joined(f.key, '=', f.text.value)) {
        var g :| g in c.labels && g.text.Some? && Joined(g.key, '=', g.text.value) == Joined(f.key, '=', f.text.value);
        JoinedCollides(f.key, f.text.value, g.key, g.text.value, '=');
      }
    }
  }

  /** Two label keys can be confused, for some values, exactly when one continues the other across a "=". */
  lemma KeysConfused(k: string, l: string)
    requires k != l
    ensures (exists v, u :: Joined(k, '=', v) == Joined(l, '=', u)) <==> Extends(k, '=', l) || Extends(l, '=', k)
  {
    forall v, u | Joined(k, '=', v) == Joined(l, '=', u) ensures Extends(k, '=', l) || Extends(l, '=', k) {
      JoinedCollides(k, v, l, u, '=');
    }
    if Extends(k, '=', l) {
      assert Joined(k, '=', Joined(l[|k| + 1..], '=', "")) == Joined(l, '=', "");
    } else if Extends(l, '=', k) {
      assert Joined(k, '=', "") == Joined(l, '=', Joined(k[|l| + 1..], '=', ""));
    }
  }

  /** Whenever two keys can be confused there is a transformer that requires one of them and matches a
      component that only has the other. */
  lemma AmbiguityMisleads(k: string, l: string)
    requires Extends(k, '=', l) || Extends(l, '=', k)
    ensures exists v, u :: var c := Component("c", [Field(l, false, Some(u))], [], []);
                           var t := Transformer("t", [Field(k, false, Some(v))], [], [], []);
                           MatchOf(c, t).matched && !Fits(c, t)
  {
    assert k != l;
    KeysConfused(k, l);
    var v, u :| Joined(k, '=', v) == Joined(l, '=', u);
    var have, need := [Field(l, false, Some(u))], [Field(k, false, Some(v))];
    assert have[0] in have && need[0] in need;
    LabelsCovered(need, have);
    KeysCovered([], []);
    assert !HasLabel(have, k, v);
    assert MatchOf(Component("c", have, [], []), Transformer("t", need, [], [], [])).matched;
  }

  // The plan, component by component

  lemma {:induction false} RowHolds(c: Component, ts: seq<Transformer>, t: Transformer)
    requires t in ts && forall i, j :: 0 <= i < j < |ts| ==> ts[i].fqn != ts[j].fqn
    ensures t.fqn in Row(c, ts) && Row(c, ts)[t.fqn] == MatchOf(c, t)
  {
    hide MatchOf;
    var n := |ts| - 1;
    if t != ts[n] {
      assert t in ts[..n];
      RowHolds(c, ts[..n], t);
    }
  }

  lemma {:induction false} RowKeys(c: Component, ts: seq<Transformer>, x: string)
    ensures x in Row(c, ts) <==> exists t :: t in ts && t.fqn == x
  {
    hide MatchOf;
    if ts != [] {
      var n := |ts| - 1;
      RowKeys(c, ts[..n], x);
      assert ts == ts[..n] + [ts[n]];
    }
  }

  lemma {:induction false} MatchedTFsHold(c: Component, ts: seq<Transformer>, x: string)
    ensures x in MatchedTFs(c, ts) <==> exists t :: t in ts && t.fqn == x && MatchOf(c, t).matched
  {
    hide MatchOf;
    if ts != [] {
      var n := |ts| - 1;
      MatchedTFsHold(c, ts[..n], x);
      assert ts == ts[..n] + [ts[n]];
    }
  }

  lemma {:induction false} LookupHolds(ts: seq<Transformer>, t: Transformer)
    requires t in ts && forall i, j :: 0 <= i < j < |ts| ==> ts[i].fqn != ts[j].fqn
    ensures Lookup(ts, t.fqn) == Some(t)
  {
    var n := |ts| - 1;
    if t != ts[n] {
      assert t in ts[..n];
      LookupHolds(ts[..n], t);
    }
  }

  lemma {:induction false} PlanRow(cs: seq<Component>, ts: seq<Transformer>, c: Component)
    requires c in cs && forall i, j :: 0 <= i < j < |cs| ==> cs[i].name != cs[j].name
    ensures var plan := PlanOf(cs, ts);
            && c.name in plan.matches && plan.matches[c.name] == Row(c, ts)
            && (c.name in plan.unhandledTraits <==> Unhandled(c, ts) != [])
            && (c.name in plan.unhandledTraits ==> plan.unhandledTraits[c.name] == Unhandled(c, ts))
  {
    hide Row, MatchedTFs, Unhandled;
    var n := |cs| - 1;
    PlanKeys(cs[..n], ts, c.name);
    if c != cs[n] {
      assert c in cs[..n];
      PlanRow(cs[..n], ts, c);
    }
  }

  lemma {:induction false} PlanKeys(cs: seq<Component>, ts: seq<Transformer>, x: string)
    ensures x in PlanOf(cs, ts).matches <==> exists c :: c in cs && c.name == x
    ensures x in PlanOf(cs, ts).unhandledTraits ==> x in PlanOf(cs, ts).matches
  {
    hide Row, MatchedTFs, Unhandled;
    if cs != [] {
      var n := |cs| - 1;
      PlanKeys(cs[..n], ts, x);
      assert cs == cs[..n] + [cs[n]];
    }
  }

  lemma {:induction false} PlanUnmatched(cs: seq<Component>, ts: seq<Transformer>, x: string)
    ensures x in PlanOf(cs, ts).unmatched <==> exists c :: c in cs && c.name == x && MatchedTFs(c, ts) == []
  {
    hide Row, MatchedTFs, Unhandled;
    if cs != [] {
      var n := |cs| - 1;
      PlanUnmatched(cs[..n], ts, x);
      assert cs == cs[..n] + [cs[n]];
    }
  }

  /** The plan says of each component and transformer what MatchOf says, and of nothing else. */
  lemma PlanExactly(cs: Components, ts: Transformers, x: string, y: string)
    ensures var plan := PlanOf(cs, ts);
            && (x in plan.matches && y in plan.matches[x] <==>
                  exists c, t :: c in cs && t in ts && c.name == x && t.fqn == y)
            && (forall c, t :: c in cs && t in ts && c.name == x && t.fqn == y ==>
                  x in plan.matches && y in plan.matches[x] && plan.matches[x][y] == MatchOf(c, t))
  {
    hide MatchOf, Row, PlanOf;
    PlanKeys(cs, ts, x);
    forall c | c in cs && c.name == x
      ensures x in PlanOf(cs, ts).matches && (y in PlanOf(cs, ts).matches[x] <==> exists t :: t in ts && t.fqn == y)
    {
      PlanRow(cs, ts, c);
      RowKeys(c, ts, y);
    }
    forall c, t | c in cs && t in ts && c.name == x && t.fqn == y
      ensures var row := PlanOf(cs, ts).matches; x in row && y in row[x] && row[x][y] == MatchOf(c, t)
    {
      PlanRow(cs, ts, c);
      RowHolds(c, ts, t);
    }
  }

  /** Matching fails exactly without a provider, on components that are no struct, and on transformers that
      are no struct if there is a component to match. */
  lemma MatchFailsExactly(m: Module, p: Provider)
    ensures Matched(m, p).None? <==>
            p == NoProvider || m == NotAModule || (p == BadTransformers && m.components != [])
    ensures Matched(m, p).Some? && !p.Provider? ==> Matched(m, p).value == MatchPlan(map[], [], map[])
  {
  }

  /** A component is unmatched exactly when no transformer matches it; the list is in order. */
  lemma UnmatchedExactly(cs: Components, ts: Transformers, x: string)
    ensures var plan := Matched(Module(cs), Provider(ts)).value;
            x in plan.unmatched <==>
              exists c :: c in cs && c.name == x && forall t :: t in ts ==> !MatchOf(c, t).matched
    ensures Sorted(Matched(Module(cs), Provider(ts)).value.unmatched, Alone)
  {
    hide MatchOf, MatchedTFs, PlanOf;
    PlanUnmatched(cs, ts, x);
    SortHolds(PlanOf(cs, ts).unmatched);
    StableSortCorrect(PlanOf(cs, ts).unmatched, Alone);
    forall c | c in cs ensures MatchedTFs(c, ts) == [] <==> forall t :: t in ts ==> !MatchOf(c, t).matched {
      NoneMatched(c, ts);
    }
  }

  lemma NoneMatched(c: Component, ts: seq<Transformer>)
    ensures MatchedTFs(c, ts) == [] <==> forall t :: t in ts ==> !MatchOf(c, t).matched
  {
    hide MatchOf, MatchedTFs;
    if MatchedTFs(c, ts) == [] {
      forall t | t in ts ensures !MatchOf(c, t).matched {
        MatchedTFsHold(c, ts, t.fqn);
      }
    } else {
      MatchedTFsHold(c, ts, MatchedTFs(c, ts)[0]);
    }
  }

  lemma {:induction false} HandledHolds(names: seq<string>, ts: seq<Transformer>, x: string)
    ensures x in Handled(names, ts) <==>
            exists y :: y in names && Lookup(ts, y).Some? && x in TraitsOf(Lookup(ts, y).value)
  {
    hide TraitsOf, Lookup;
    if names != [] {
      var n := |names| - 1;
      HandledHolds(names[..n], ts, x);
      assert names[n] in names;
      if x in Handled(names[..n], ts) {
        var y :| y in names[..n] && Lookup(ts, y).Some? && x in TraitsOf(Lookup(ts, y).value);
        assert y in names;
      }
    }
  }

  lemma TraitsHold(t: Transformer, x: string)
    ensures x in TraitsOf(t) <==> HasRegular(t.requiredTraits, x) || HasRegular(t.optionalTraits, x)
  {
    SortHolds(Labels(t.requiredTraits, false));
    SortHolds(Labels(t.optionalTraits, false));
    LabelsHold(t.requiredTraits, false, x);
    LabelsHold(t.optionalTraits, false, x);
  }

  /** A trait is reported as unhandled exactly when the component has it and no transformer that
      matches the component requires it or allows for it. */
  lemma UnhandledExactly(cs: Components, ts: Transformers, c: Component, x: string)
    requires c in cs
    ensures var plan := PlanOf(cs, ts);
            c.name in plan.unhandledTraits && x in plan.unhandledTraits[c.name] <==>
              && HasRegular(c.traits, x)
              && forall t :: t in ts && MatchOf(c, t).matched ==>
                   !HasRegular(t.requiredTraits, x) && !HasRegular(t.optionalTraits, x)
    ensures var plan := PlanOf(cs, ts); c.name in plan.unhandledTraits ==> Sorted(plan.unhandledTraits[c.name], Alone)
  {
    hide MatchOf, MatchedTFs, Handled, HasRegular, PlanOf, Without, StableSort, TraitsOf;
    StableSortCorrect(Without(FieldKeys(c.traits), Handled(MatchedTFs(c, ts), ts)), Alone);
    PlanRow(cs, ts, c);
    var names := MatchedTFs(c, ts);
    SortHolds(Without(FieldKeys(c.traits), Handled(names, ts)));
    WithoutHolds(FieldKeys(c.traits), Handled(names, ts), x);
    SortHolds(Labels(c.traits, false));
    assert x in FieldKeys(c.traits) <==> HasRegular(c.traits, x) by { RegularKeys(c.traits, x); }
    HandledByMatched(c, ts, x);
  }

  lemma RegularKeys(fs: seq<Field>, x: string)
    ensures x in FieldKeys(fs) <==> HasRegular(fs, x)
    ensures Sorted(FieldKeys(fs), Alone)
  {
    StableSortCorrect(Labels(fs, false), Alone);
    SortHolds(Labels(fs, false));
    LabelsHold(fs, false, x);
  }

  lemma HandledByMatched(c: Component, ts: Transformers, x: string)
    ensures x in Handled(MatchedTFs(c, ts), ts) <==>
            exists t :: t in ts && MatchOf(c, t).matched &&
              (HasRegular(t.requiredTraits, x) || HasRegular(t.optionalTraits, x))
  {
    hide MatchOf, MatchedTFs, Handled, HasRegular, TraitsOf;
    var names := MatchedTFs(c, ts);
    HandledHolds(names, ts, x);
    if x in Handled(names, ts) {
      var y :| y in names && Lookup(ts, y).Some? && x in TraitsOf(Lookup(ts, y).value);
      MatchedTFsHold(c, ts, y);
      var t :| t in ts && t.fqn == y && MatchOf(c, t).matched;
      LookupHolds(ts, t);
      TraitsHold(t, x);
    }
    forall t | t in ts && MatchOf(c, t).matched && (HasRegular(t.requiredTraits, x) || HasRegular(t.optionalTraits, x))
      ensures x in Handled(names, ts)
    {
      MatchedTFsHold(c, ts, t.fqn);
      LookupHolds(ts, t);
      TraitsHold(t, x);
    }
  }
}
