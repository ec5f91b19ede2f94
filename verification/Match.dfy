/** The component/transformer matcher (pkg/render/match.go). CUE structs are lists of fields in
    declaration order; the plan's maps are read in any order, as Go does. */
module Match {
  import opened Ordering
  import opened Json
  import opened Digests

  /** `text` is the field's value if it is a string. */
  datatype Field = Field(key: string, optional: bool, text: Option<string>)

  datatype Component = Component(name: string, labels: seq<Field>, resources: seq<Field>, traits: seq<Field>)

  datatype Transformer = Transformer(fqn: string, requiredLabels: seq<Field>, requiredResources: seq<Field>,
                                     requiredTraits: seq<Field>, optionalTraits: seq<Field>)

  /** A CUE struct has each of its labels once. */
  type Components = cs: seq<Component> | forall i, j :: 0 <= i < j < |cs| ==> cs[i].name != cs[j].name
  type Transformers = ts: seq<Transformer> | forall i, j :: 0 <= i < j < |ts| ==> ts[i].fqn != ts[j].fqn

  datatype Module = NotAModule | Module(components: Components)
  datatype Provider = NoProvider | NoTransformers | BadTransformers | Provider(transformers: Transformers)

  datatype MatchResult = MatchResult(matched: bool, missingLabels: seq<string>, missingResources: seq<string>,
                                     missingTraits: seq<string>)

  datatype MatchPlan = MatchPlan(matches: map<string, map<string, MatchResult>>, unmatched: seq<string>,
                                 unhandledTraits: map<string, seq<string>>)

  const EMPTY_PLAN := MatchPlan(map[], [], map[])

  // Fields

  function Alone(s: string): seq<string> {
    [s]
  }

  function SortStrings(s: seq<string>): seq<string> {
    StableSort(s, Alone)
  }

  /** The labels of a struct, with or without its optional fields. */
  function Labels(fs: seq<Field>, optional: bool): seq<string> {
    if fs == [] then []
    else
      var f := fs[|fs| - 1];
      Labels(fs[..|fs| - 1], optional) + (if f.optional && !optional then [] else [f.key])
  }

  /** "key=value" for every string field, optional ones included. */
  function Pairs(fs: seq<Field>): seq<string> {
    if fs == [] then []
    else
      var f := fs[|fs| - 1];
      Pairs(fs[..|fs| - 1]) + (if f.text.Some? then [Joined(f.key, '=', f.text.value)] else [])
  }

  function Elements(xs: seq<string>): set<string> {
    set x | x in xs
  }

  function Without(xs: seq<string>, have: set<string>): seq<string> {
    if xs == [] then []
    else Without(xs[..|xs| - 1], have) + (if xs[|xs| - 1] in have then [] else [xs[|xs| - 1]])
  }

  function FieldKeys(fs: seq<Field>): seq<string> {
    SortStrings(Labels(fs, false))
  }

  method ComputeFieldKeys(fs: seq<Field>) returns (out: seq<string>)
    ensures out == FieldKeys(fs)
  {
    out := [];
    for i := 0 to |fs|
      invariant out == Labels(fs[..i], false)
    {
      assert fs[..i + 1][..i] == fs[..i];
      if !fs[i].optional {
        out := out + [fs[i].key];
      }
    }
    assert fs[..|fs|] == fs;
    out := SortStrings(out);
  }

  method LabelPairs(fs: seq<Field>) returns (pairs: set<string>)
    ensures pairs == Elements(Pairs(fs))
  {
    pairs := {};
    for i := 0 to |fs|
      invariant pairs == Elements(Pairs(fs[..i]))
    {
      assert fs[..i + 1][..i] == fs[..i];
      if fs[i].text.Some? {
        pairs := pairs + {Joined(fs[i].key, '=', fs[i].text.value)};
      }
    }
    assert fs[..|fs|] == fs;
  }

  method MissingMapLabels(required: seq<Field>, have: set<string>) returns (missing: seq<string>)
    ensures missing == SortStrings(Without(Pairs(required), have))
  {
    missing := [];
    for i := 0 to |required|
      invariant missing == Without(Pairs(required[..i]), have)
    {
      assert required[..i + 1][..i] == required[..i];
      if required[i].text.None? {
        assert Pairs(required[..i + 1]) == Pairs(required[..i]);
        continue;
      }
      var pair := Joined(required[i].key, '=', required[i].text.value);
      assert (Pairs(required[..i]) + [pair])[..|Pairs(required[..i])|] == Pairs(required[..i]);
      if pair !in have {
        missing := missing + [pair];
      }
    }
    assert required[..|required|] == required;
    missing := SortStrings(missing);
  }

  method MissingKeys(required: seq<Field>, have: seq<string>) returns (missing: seq<string>)
    ensures missing == SortStrings(Without(Labels(required, true), Elements(have)))
  {
    missing := [];
    for i := 0 to |required|
      invariant missing == Without(Labels(required[..i], true), Elements(have))
    {
      assert required[..i + 1][..i] == required[..i];
      var before := Labels(required[..i], true);
      assert (before + [required[i].key])[..|before|] == before;
      if required[i].key !in have {
        missing := missing + [required[i].key];
      }
    }
    assert required[..|required|] == required;
    missing := SortStrings(missing);
  }

  // The plan

  function MatchOf(c: Component, t: Transformer): MatchResult {
    var labels := SortStrings(Without(Pairs(t.requiredLabels), Elements(Pairs(c.labels))));
    var resources := SortStrings(Without(Labels(t.requiredResources, true), Elements(FieldKeys(c.resources))));
    var traits := SortStrings(Without(Labels(t.requiredTraits, true), Elements(FieldKeys(c.traits))));
    MatchResult(|labels| == 0 && |resources| == 0 && |traits| == 0, labels, resources, traits)
  }

  function Row(c: Component, ts: seq<Transformer>): map<string, MatchResult> {
    if ts == [] then map[]
    else Row(c, ts[..|ts| - 1])[ts[|ts| - 1].fqn := MatchOf(c, ts[|ts| - 1])]
  }

  function MatchedTFs(c: Component, ts: seq<Transformer>): seq<string> {
    if ts == [] then []
    else MatchedTFs(c, ts[..|ts| - 1]) + (if MatchOf(c, ts[|ts| - 1]).matched then [ts[|ts| - 1].fqn] else [])
  }

  function TraitsOf(t: Transformer): set<string> {
    Elements(FieldKeys(t.requiredTraits)) + Elements(FieldKeys(t.optionalTraits))
  }

  /** The transformer a provider holds under a name. */
  function Lookup(ts: seq<Transformer>, fqn: string): Option<Transformer> {
    if ts == [] then None
    else if ts[|ts| - 1].fqn == fqn then Some(ts[|ts| - 1])
    else Lookup(ts[..|ts| - 1], fqn)
  }

  /** The traits the named transformers take care of. */
  function Handled(names: seq<string>, ts: seq<Transformer>): set<string> {
    if names == [] then {}
    else
      Handled(names[..|names| - 1], ts) +
      match Lookup(ts, names[|names| - 1]) case Some(t) => TraitsOf(t) case None => {}
  }

  function Unhandled(c: Component, ts: seq<Transformer>): seq<string> {
    SortStrings(Without(FieldKeys(c.traits), Handled(MatchedTFs(c, ts), ts)))
  }

  function PlanOf(cs: seq<Component>, ts: seq<Transformer>): MatchPlan {
    if cs == [] then EMPTY_PLAN
    else
      var c := cs[|cs| - 1];
      var plan := PlanOf(cs[..|cs| - 1], ts);
      MatchPlan(
        plan.matches[c.name := Row(c, ts)],
        if MatchedTFs(c, ts) == [] then plan.unmatched + [c.name] else plan.unmatched,
        if Unhandled(c, ts) == [] then plan.unhandledTraits else plan.unhandledTraits[c.name := Unhandled(c, ts)])
  }

  /** The plan, or None for an error. A provider without #transformers gets an empty plan. */
  function Matched(m: Module, p: Provider): Option<MatchPlan> {
    if p.NoProvider? || m.NotAModule? then None
    else match p
      case NoTransformers => Some(EMPTY_PLAN)
      case BadTransformers => if m.components == [] then Some(EMPTY_PLAN) else None
      case Provider(ts) =>
        var plan := PlanOf(m.components, ts);
        Some(plan.(unmatched := SortStrings(plan.unmatched)))
  }

  // The matcher itself

  method MatchRow(c: Component, ts: Transformers) returns (row: map<string, MatchResult>, matchedTFs: seq<string>)
    ensures row == Row(c, ts) && matchedTFs == MatchedTFs(c, ts)
  {
    var labels := LabelPairs(c.labels);
    var resources := ComputeFieldKeys(c.resources);
    var traits := ComputeFieldKeys(c.traits);
    row, matchedTFs := map[], [];
    for i := 0 to |ts|
      invariant row == Row(c, ts[..i]) && matchedTFs == MatchedTFs(c, ts[..i])
    {
      var t := ts[i];
      assert ts[..i + 1][..i] == ts[..i];
      var missingLabels := MissingMapLabels(t.requiredLabels, labels);
      var missingResources := MissingKeys(t.requiredResources, resources);
      var missingTraits := MissingKeys(t.requiredTraits, traits);
      var result := MatchResult(|missingLabels| == 0 && |missingResources| == 0 && |missingTraits| == 0,
                                missingLabels, missingResources, missingTraits);
      row := row[t.fqn := result];
      if result.matched {
        matchedTFs := matchedTFs + [t.fqn];
      }
    }
    assert ts[..|ts|] == ts;
  }

  method HandledTraits(names: seq<string>, ts: Transformers) returns (handled: set<string>)
    ensures handled == Handled(names, ts)
  {
    handled := {};
    for i := 0 to |names|
      invariant handled == Handled(names[..i], ts)
    {
      assert names[..i + 1][..i] == names[..i];
      var t := Lookup(ts, names[i]);
      if t.Some? {
        var required := ComputeFieldKeys(t.value.requiredTraits);
        handled := InsertAll(handled, required);
        var optional := ComputeFieldKeys(t.value.optionalTraits);
        handled := InsertAll(handled, optional);
      }
    }
    assert names[..|names|] == names;
  }

  method InsertAll(into: set<string>, keys: seq<string>) returns (r: set<string>)
    ensures r == into + Elements(keys)
  {
    r := into;
    for i := 0 to |keys|
      invariant r == into + Elements(keys[..i])
    {
      assert keys[..i + 1] == keys[..i] + [keys[i]];
      r := r + {keys[i]};
    }
    assert keys[..|keys|] == keys;
  }

  method UnhandledTraits(c: Component, names: seq<string>, ts: Transformers) returns (out: seq<string>)
    ensures out == SortStrings(Without(FieldKeys(c.traits), Handled(names, ts)))
  {
    var traits := ComputeFieldKeys(c.traits);
    var handled := HandledTraits(names, ts);
    out := [];
    for i := 0 to |traits|
      invariant out == Without(traits[..i], handled)
    {
      assert traits[..i + 1][..i] == traits[..i];
      if traits[i] !in handled {
        out := out + [traits[i]];
      }
    }
    assert traits[..|traits|] == traits;
    out := SortStrings(out);
  }

  /** The whole matcher; None for an error. */
  method Match(m: Module, p: Provider) returns (plan: Option<MatchPlan>)
    ensures plan == Matched(m, p)
  {
    if p.NoProvider? || m.NotAModule? {
      return None;
    }
    if p.NoTransformers? {
      return Some(EMPTY_PLAN);
    }
    var cs := m.components;
    var matches: map<string, map<string, MatchResult>> := map[];
    var unmatched: seq<string> := [];
    var unhandled: map<string, seq<string>> := map[];
    for i := 0 to |cs|
      invariant p.BadTransformers? ==> i == 0
      invariant p.Provider? ==> MatchPlan(matches, unmatched, unhandled) == PlanOf(cs[..i], p.transformers)
      invariant i == 0 ==> MatchPlan(matches, unmatched, unhandled) == EMPTY_PLAN
    {
      if p.BadTransformers? {
        return None;
      }
      assert cs[..i + 1][..i] == cs[..i];
      var row, matchedTFs := MatchRow(cs[i], p.transformers);
      matches := matches[cs[i].name := row];
      if |matchedTFs| == 0 {
        unmatched := unmatched + [cs[i].name];
      }
      var rest := UnhandledTraits(cs[i], matchedTFs, p.transformers);
      if |rest| > 0 {
        unhandled := unhandled[cs[i].name := rest];
      }
    }
    assert cs[..|cs|] == cs;
    return Some(MatchPlan(matches, SortStrings(unmatched), unhandled));
  }
}
