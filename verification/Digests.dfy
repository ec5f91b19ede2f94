/** The reconcile digests (internal/status/digests.go). SHA-256 is an ideal hash:
    a digest is its preimage, so equal digests mean equal hashed texts. */
module Digests {
  import opened Ordering
  import opened Json

  /** `NoDigest` is the empty string of a status field that was never written. */
  datatype Digest = NoDigest | Sha256(preimage: string)

  datatype DigestSet = DigestSet(source: Digest, config: Digest, render: Digest, inventory: Digest)

  predicate IsNoOp(current: DigestSet, lastApplied: DigestSet) {
    if lastApplied.source == NoDigest || lastApplied.config == NoDigest ||
       lastApplied.render == NoDigest || lastApplied.inventory == NoDigest
    then false
    else
      && current.source == lastApplied.source
      && current.config == lastApplied.config
      && current.render == lastApplied.render
      && current.inventory == lastApplied.inventory
  }

  // Separators: "path@version" here, "key=value" in the matcher

  function Joined(a: string, sep: char, b: string): string {
    a + [sep] + b
  }

  /** `b` is `a`, the separator, and something more. */
  predicate Extends(a: string, sep: char, b: string) {
    |a| < |b| && b[..|a|] == a && b[|a|] == sep
  }

  /** Two joined texts coincide for different parts only if one first part extends the other. */
  lemma JoinedCollides(a: string, b: string, a': string, b': string, sep: char)
    requires Joined(a, sep, b) == Joined(a', sep, b')
    ensures (a == a' && b == b') || Extends(a, sep, a') || Extends(a', sep, a)
  {
    var x, y := Joined(a, sep, b), Joined(a', sep, b');
    assert x[..|a|] == a && x[|a|] == sep && x[|a| + 1..] == b;
    assert y[..|a'|] == a' && y[|a'|] == sep && y[|a'| + 1..] == b';
    if |a| < |a'| {
      assert a'[..|a|] == y[..|a|];
    } else if |a'| < |a| {
      assert a[..|a'|] == x[..|a'|];
    }
  }

  function ModuleSourceDigest(path: string, version: string): Digest {
    Sha256(Joined(path, '@', version))
  }

  lemma LongerPath(path: string, version: string, path': string, version': string)
    requires Joined(path, '@', version) == Joined(path', '@', version') && |path| < |path'|
    ensures '@' in version
  {
    assert Joined(path', '@', version')[|path'|] == '@';
    assert Joined(path, '@', version)[|path'|] == version[|path'| - |path| - 1];
  }

  /** Moving the separator to an "@" of the version, or to one of the path, gives another reference
      with the same joined text. */
  lemma SeparatorMoves(path: string, version: string, i: nat)
    ensures i < |version| && version[i] == '@' ==>
              Joined(path + ['@'] + version[..i], '@', version[i + 1..]) == Joined(path, '@', version)
    ensures i < |path| && path[i] == '@' ==>
              Joined(path[..i], '@', path[i + 1..] + ['@'] + version) == Joined(path, '@', version)
  {
    if i < |version| && version[i] == '@' {
      assert version == version[..i] + ['@'] + version[i + 1..];
    }
    if i < |path| && path[i] == '@' {
      assert path == path[..i] + ['@'] + path[i + 1..];
    }
  }

  /** Some other module reference has the same source digest. */
  ghost predicate SharesDigest(path: string, version: string) {
    exists p, v :: (p != path || v != version) && ModuleSourceDigest(p, v) == ModuleSourceDigest(path, version)
  }

  /** A module reference shares its source digest with another one exactly when its path or its
      version holds an "@"; module paths with a major version suffix do. */
  lemma SourceDigestExact(path: string, version: string)
    ensures SharesDigest(path, version) <==> '@' in path || '@' in version
  {
    if '@' in version {
      var i :| 0 <= i < |version| && version[i] == '@';
      SeparatorMoves(path, version, i);
      var p, v := path + ['@'] + version[..i], version[i + 1..];
      assert |p| > |path| && ModuleSourceDigest(p, v) == ModuleSourceDigest(path, version);
    } else if '@' in path {
      var i :| 0 <= i < |path| && path[i] == '@';
      SeparatorMoves(path, version, i);
      var p, v := path[..i], path[i + 1..] + ['@'] + version;
      assert |p| < |path| && ModuleSourceDigest(p, v) == ModuleSourceDigest(path, version);
    }
    if SharesDigest(path, version) {
      var p, v :| (p != path || v != version) && ModuleSourceDigest(p, v) == ModuleSourceDigest(path, version);
      JoinedCollides(p, v, path, version, '@');
      if |path| < |p| {
        LongerPath(path, version, p, v);
      } else {
        assert path[|p|] == '@';
      }
    }
  }

  /** For versions without "@" the source digest decides path and version, whatever "@" the path has. */
  lemma SourceDigestDecides(path: string, version: string, path': string, version': string)
    requires '@' !in version && '@' !in version'
    ensures ModuleSourceDigest(path, version) == ModuleSourceDigest(path', version')
            <==> path == path' && version == version'
  {
    if ModuleSourceDigest(path, version) == ModuleSourceDigest(path', version') {
      JoinedCollides(path, version, path', version', '@');
      if |path| < |path'| {
        LongerPath(path, version, path', version');
      } else if |path'| < |path| {
        LongerPath(path', version', path, version);
      }
    }
  }

  // Configuration

  /** spec.values: missing or empty, bytes that are not JSON, or a JSON text with its tree. */
  datatype Values = Absent | Invalid(raw: string) | Parsed(tree: Value)

  /** Sets a key in a list sorted by key, as `m[key] = value` then marshalling the map. */
  function Put(ms: seq<Member>, m: Member): seq<Member> {
    if ms == [] then [m]
    else if m.name == ms[0].name then [m] + ms[1..]
    else if StringLess(m.name, ms[0].name) then [m] + ms
    else [ms[0]] + Put(ms[1..], m)
  }

  /** Decoding into `any` and marshalling again: members become a sorted map, numbers
      pass through float64 (`num`). */
  function Canonical(num: NumText -> NumText, v: Value): Value
    decreases v, 1
  {
    match v
    case Num(t) => Num(num(t))
    case Arr(xs) => Arr(CanonicalItems(num, xs))
    case Obj(ms) => Obj(CanonicalMembers(num, ms))
    case _ => v
  }

  function CanonicalItems(num: NumText -> NumText, xs: seq<Value>): (r: seq<Value>)
    ensures |r| == |xs|
    decreases xs, 0
  {
    if xs == [] then [] else CanonicalItems(num, xs[..|xs| - 1]) + [Canonical(num, xs[|xs| - 1])]
  }

  function CanonicalMembers(num: NumText -> NumText, ms: seq<Member>): seq<Member>
    decreases ms, 0
  {
    if ms == [] then []
    else
      var m := ms[|ms| - 1];
      Put(CanonicalMembers(num, ms[..|ms| - 1]), Member(m.name, Canonical(num, m.value)))
  }

  function ConfigDigest(num: NumText -> NumText, values: Values): Digest {
    match values
    case Absent => Sha256("")
    case Invalid(raw) => Sha256(raw)
    case Parsed(tree) => Sha256(Text(Canonical(num, tree)))
  }

  ghost predicate Distinct(ms: seq<Member>) {
    forall i, j :: 0 <= i < j < |ms| ==> ms[i].name != ms[j].name
  }

  /** Member names are distinct at every depth. */
  ghost predicate DuplicateFree(v: Value) {
    match v
    case Arr(xs) => forall i :: 0 <= i < |xs| ==> DuplicateFree(xs[i])
    case Obj(ms) => Distinct(ms) && forall i :: 0 <= i < |ms| ==> DuplicateFree(ms[i].value)
    case _ => true
  }

  /** Equal but for the order of members, at every depth, and the spelling of numbers. */
  ghost predicate SameConfig(num: NumText -> NumText, a: Value, b: Value)
    decreases a
  {
    match a
    case Num(t) => b.Num? && num(t) == num(b.token)
    case Arr(xs) => b.Arr? && |xs| == |b.items| && forall i :: 0 <= i < |xs| ==> SameConfig(num, xs[i], b.items[i])
    case Obj(ms) =>
      && b.Obj?
      && (forall i :: 0 <= i < |ms| ==>
            Find(b.members, ms[i].name).Some? && SameConfig(num, ms[i].value, Find(b.members, ms[i].name).value))
      && forall j :: 0 <= j < |b.members| ==> Find(ms, b.members[j].name).Some?
    case _ => a == b
  }

  // Sorted member lists

  ghost predicate NamesIncrease(ms: seq<Member>) {
    forall i, j :: 0 <= i < j < |ms| ==> StringLess(ms[i].name, ms[j].name)
  }

  lemma {:induction false} FindIn(ms: seq<Member>, name: string)
    ensures Find(ms, name).Some? <==> exists i :: 0 <= i < |ms| && ms[i].name == name
    ensures Find(ms, name).Some? ==> exists i :: 0 <= i < |ms| && ms[i] == Member(name, Find(ms, name).value)
  {
    if ms != [] && ms[|ms| - 1].name != name {
      FindIn(ms[..|ms| - 1], name);
      assert forall i :: 0 <= i < |ms| - 1 ==> ms[..|ms| - 1][i] == ms[i];
    }
  }

  lemma FindDistinct(ms: seq<Member>, i: nat)
    requires Distinct(ms) && i < |ms|
    ensures Find(ms, ms[i].name) == Some(ms[i].value)
  {
    FindIn(ms, ms[i].name);
  }

  lemma IncreasingDistinct(ms: seq<Member>)
    requires NamesIncrease(ms)
    ensures Distinct(ms)
  {
    forall i, j | 0 <= i < j < |ms| ensures ms[i].name != ms[j].name {
      StringLessTotal(ms[i].name, ms[j].name);
    }
  }

  lemma {:induction false} PutSorted(ms: seq<Member>, m: Member)
    requires NamesIncrease(ms)
    ensures NamesIncrease(Put(ms, m))
    ensures forall x :: x in Put(ms, m) <==> x == m || (x in ms && x.name != m.name)
  {
    if ms != [] {
      var h, t := ms[0], ms[1..];
      assert ms == [h] + t;
      forall i | 0 <= i < |t| ensures StringLess(h.name, t[i].name) && h.name != t[i].name {
        assert t[i] == ms[i + 1];
        StringLessTotal(h.name, t[i].name);
      }
      assert NamesIncrease(t) by { assert forall i :: 0 <= i < |t| ==> t[i] == ms[i + 1]; }
      StringLessTotal(m.name, h.name);
      if m.name == h.name {
      } else if StringLess(m.name, h.name) {
        forall i | 0 <= i < |t| ensures StringLess(m.name, t[i].name) && m.name != t[i].name {
          StringLessTransitive(m.name, h.name, t[i].name);
          StringLessTotal(m.name, t[i].name);
        }
      } else {
        PutSorted(t, m);
        var r := Put(t, m);
        forall i | 0 <= i < |r| ensures StringLess(h.name, r[i].name) {
          assert r[i] in r;
        }
      }
    }
  }

  lemma FindPut(ms: seq<Member>, m: Member, name: string)
    requires NamesIncrease(ms)
    ensures Find(Put(ms, m), name) == if name == m.name then Some(m.value) else Find(ms, name)
  {
    PutSorted(ms, m);
    IncreasingDistinct(ms);
    IncreasingDistinct(Put(ms, m));
    FindIn(ms, name);
    FindIn(Put(ms, m), name);
    var r := Put(ms, m);
    if name == m.name {
      assert m in r;
      var i :| 0 <= i < |r| && r[i] == m;
      FindDistinct(r, i);
    } else if Find(ms, name).Some? {
      var x := Member(name, Find(ms, name).value);
      assert x in ms && x in r;
      var i :| 0 <= i < |r| && r[i] == x;
      FindDistinct(r, i);
    } else {
      forall x | x in r ensures x.name != name {
        assert x == m || x in ms;
      }
    }
  }

  /** Two lists sorted by name that agree on every lookup are the same list. */
  lemma {:induction false} IncreasingUnique(ms: seq<Member>, ns: seq<Member>)
    requires NamesIncrease(ms) && NamesIncrease(ns)
    requires forall x :: x in ms <==> x in ns
    ensures ms == ns
  {
    assert ms != [] ==> ms[0] in ms;
    assert ns != [] ==> ns[0] in ns;
    if ms != [] {
      var a, b, p, q := ms[|ms| - 1], ns[|ns| - 1], ms[..|ms| - 1], ns[..|ns| - 1];
      StringLessTotal(a.name, b.name);
      assert a in ms && b in ns;
      assert a == b;
      forall x ensures x in p <==> x in q {
        StringLessTotal(a.name, a.name);
        assert x in p <==> x in ms && x != a by { assert ms == p + [a]; }
        assert x in q <==> x in ns && x != b by { assert ns == q + [b]; }
      }
      IncreasingUnique(p, q);
      assert ms == p + [a] && ns == q + [b];
    }
  }

  lemma {:induction false} CanonicalMembersSorted(num: NumText -> NumText, ms: seq<Member>)
    ensures NamesIncrease(CanonicalMembers(num, ms))
    ensures forall name :: Find(CanonicalMembers(num, ms), name) ==
                           match Find(ms, name) case Some(v) => Some(Canonical(num, v)) case None => None
  {
    if ms != [] {
      var p, m := ms[..|ms| - 1], ms[|ms| - 1];
      CanonicalMembersSorted(num, p);
      PutSorted(CanonicalMembers(num, p), Member(m.name, Canonical(num, m.value)));
      forall name ensures Find(CanonicalMembers(num, ms), name) ==
                          match Find(ms, name) case Some(v) => Some(Canonical(num, v)) case None => None {
        FindPut(CanonicalMembers(num, p), Member(m.name, Canonical(num, m.value)), name);
      }
    }
  }

  lemma {:induction false} CanonicalItemsAt(num: NumText -> NumText, xs: seq<Value>, i: nat)
    requires i < |xs|
    ensures CanonicalItems(num, xs)[i] == Canonical(num, xs[i])
  {
    if i < |xs| - 1 {
      CanonicalItemsAt(num, xs[..|xs| - 1], i);
    }
  }

  lemma MembersAgree(ms: seq<Member>, ns: seq<Member>)
    requires NamesIncrease(ms) && NamesIncrease(ns)
    requires forall name :: Find(ms, name) == Find(ns, name)
    ensures ms == ns
  {
    IncreasingDistinct(ms);
    IncreasingDistinct(ns);
    forall x ensures x in ms <==> x in ns {
      FindIn(ms, x.name);
      FindIn(ns, x.name);
      if x in ms { var i :| 0 <= i < |ms| && ms[i] == x; FindDistinct(ms, i); }
      if x in ns { var i :| 0 <= i < |ns| && ns[i] == x; FindDistinct(ns, i); }
    }
    IncreasingUnique(ms, ns);
  }

  lemma {:induction false} CanonicalDecides(num: NumText -> NumText, a: Value, b: Value)
    requires DuplicateFree(a) && DuplicateFree(b)
    ensures SameConfig(num, a, b) <==> Canonical(num, a) == Canonical(num, b)
    decreases a
  {
    match (a, b) {
      case (Arr(xs), Arr(ys)) =>
        var us, vs := CanonicalItems(num, xs), CanonicalItems(num, ys);
        if |xs| == |ys| {
          forall i | 0 <= i < |xs| ensures SameConfig(num, xs[i], ys[i]) <==> us[i] == vs[i] {
            CanonicalDecides(num, xs[i], ys[i]);
            CanonicalItemsAt(num, xs, i);
            CanonicalItemsAt(num, ys, i);
          }
        }
      case (Obj(ms), Obj(ns)) =>
        forall i | 0 <= i < |ms| && Find(ns, ms[i].name).Some?
          ensures SameConfig(num, ms[i].value, Find(ns, ms[i].name).value)
                  <==> Canonical(num, ms[i].value) == Canonical(num, Find(ns, ms[i].name).value)
        {
          FindIn(ns, ms[i].name);
          CanonicalDecides(num, ms[i].value, Find(ns, ms[i].name).value);
        }
        MembersDecide(num, ms, ns);
      case _ =>
    }
  }

  lemma MembersDecide(num: NumText -> NumText, ms: seq<Member>, ns: seq<Member>)
    requires Distinct(ms) && Distinct(ns)
    ensures CanonicalMembers(num, ms) == CanonicalMembers(num, ns) <==>
            && (forall i :: 0 <= i < |ms| ==>
                  && Find(ns, ms[i].name).Some?
                  && Canonical(num, ms[i].value) == Canonical(num, Find(ns, ms[i].name).value))
            && forall j :: 0 <= j < |ns| ==> Find(ms, ns[j].name).Some?
  {
    var us, vs := CanonicalMembers(num, ms), CanonicalMembers(num, ns);
    CanonicalMembersSorted(num, ms);
    CanonicalMembersSorted(num, ns);
    if us == vs {
      forall i | 0 <= i < |ms|
        ensures Find(ns, ms[i].name).Some? && Canonical(num, ms[i].value) == Canonical(num, Find(ns, ms[i].name).value)
      {
        FindDistinct(ms, i);
        assert Find(us, ms[i].name) == Find(vs, ms[i].name);
      }
      forall j | 0 <= j < |ns| ensures Find(ms, ns[j].name).Some? {
        FindDistinct(ns, j);
        assert Find(us, ns[j].name) == Find(vs, ns[j].name);
      }
    } else if
      && (forall i :: 0 <= i < |ms| ==>
            && Find(ns, ms[i].name).Some?
            && Canonical(num, ms[i].value) == Canonical(num, Find(ns, ms[i].name).value))
      && forall j :: 0 <= j < |ns| ==> Find(ms, ns[j].name).Some?
    {
      forall name ensures Find(us, name) == Find(vs, name) {
        FindIn(ms, name);
        FindIn(ns, name);
      }
      MembersAgree(us, vs);
    }
  }

  /** Two JSON configurations with distinct member names get the same digest exactly when
      they differ only in member order (at any depth) and in how equal numbers are spelt;
      and no configuration shares its digest with a missing one. */
  lemma ConfigDigestDecides(num: NumText -> NumText, a: Value, b: Value)
    requires DuplicateFree(a) && DuplicateFree(b)
    ensures ConfigDigest(num, Parsed(a)) == ConfigDigest(num, Parsed(b)) <==> SameConfig(num, a, b)
    ensures ConfigDigest(num, Parsed(a)) != ConfigDigest(num, Absent)
    ensures forall x, y :: ConfigDigest(num, Invalid(x)) == ConfigDigest(num, Invalid(y)) ==> x == y
  {
    CanonicalDecides(num, a, b);
    Head(Canonical(num, a), "");
    if Text(Canonical(num, a)) == Text(Canonical(num, b)) {
      TextInjective(Canonical(num, a), Canonical(num, b));
    }
  }

  // Rendered resources

  /** A rendered resource; `broken` when its CUE value does not marshal. */
  datatype Resource = Resource(manifest: Value, broken: bool)

  /** parseAPIVersion: split at the last "/". */
  function ApiGroup(apiVersion: string): string {
    if apiVersion == "" then ""
    else if apiVersion[|apiVersion| - 1] == '/' then apiVersion[..|apiVersion| - 1]
    else ApiGroup(apiVersion[..|apiVersion| - 1])
  }

  /** The sort key of RenderDigest: group, kind, namespace, name. */
  function ResourceKey(r: Resource): seq<string> {
    [ApiGroup(StringAt(r.manifest, ["apiVersion"])), StringAt(r.manifest, ["kind"]),
     StringAt(r.manifest, ["metadata", "namespace"]), StringAt(r.manifest, ["metadata", "name"])]
  }

  function Manifests(rs: seq<Resource>): (ms: seq<Value>)
    ensures |ms| == |rs| && forall i :: 0 <= i < |rs| ==> ms[i] == rs[i].manifest
  {
    seq(|rs|, i requires 0 <= i < |rs| => rs[i].manifest)
  }

  predicate AnyBroken(rs: seq<Resource>) {
    exists r :: r in rs && r.broken
  }

  function Hashed(rs: seq<Resource>): Option<Digest> {
    if AnyBroken(rs) then None else Some(Sha256(Stream(Manifests(rs))))
  }

  /** None when some resource does not marshal. */
  function RenderDigest(rs: seq<Resource>): Option<Digest> {
    Hashed(StableSort(rs, ResourceKey))
  }

  /** The source's loop: sort a copy, then feed the hasher one resource at a time. */
  method ComputeRenderDigest(resources: seq<Resource>) returns (d: Option<Digest>)
    ensures d == RenderDigest(resources)
  {
    d := HashInOrder(StableSort(resources, ResourceKey));
  }

  method HashInOrder(sorted: seq<Resource>) returns (d: Option<Digest>)
    ensures d == Hashed(sorted)
  {
    var hashed := "";
    for i := 0 to |sorted|
      invariant forall k :: 0 <= k < i ==> !sorted[k].broken
      invariant hashed == Stream(Manifests(sorted[..i]))
    {
      if sorted[i].broken {
        return None;
      }
      hashed := hashed + Text(sorted[i].manifest);
      StreamStep(sorted, i);
    }
    assert sorted[..|sorted|] == sorted;
    return Some(Sha256(hashed));
  }

  lemma StreamStep(rs: seq<Resource>, i: nat)
    requires i < |rs|
    ensures Stream(Manifests(rs[..i + 1])) == Stream(Manifests(rs[..i])) + Text(rs[i].manifest)
  {
    assert Manifests(rs[..i + 1])[..i] == Manifests(rs[..i]);
  }

  /** Resources that marshal, and marshal to JSON objects. */
  ghost predicate WholeObjects(rs: seq<Resource>) {
    forall i :: 0 <= i < |rs| ==> !rs[i].broken && rs[i].manifest.Obj?
  }

  lemma SortedWhole(rs: seq<Resource>)
    requires WholeObjects(rs)
    ensures WholeObjects(StableSort(rs, ResourceKey))
  {
    StableSortCorrect(rs, ResourceKey);
    var sorted := StableSort(rs, ResourceKey);
    forall i | 0 <= i < |sorted| ensures !sorted[i].broken && sorted[i].manifest.Obj? {
      assert sorted[i] in multiset(rs);
    }
  }

  /** Equal render digests mean equal lists of sorted resources. */
  lemma RenderDigestReads(rs: seq<Resource>, qs: seq<Resource>)
    requires WholeObjects(rs) && WholeObjects(qs)
    ensures RenderDigest(rs) == RenderDigest(qs) <==> StableSort(rs, ResourceKey) == StableSort(qs, ResourceKey)
  {
    var a, b := StableSort(rs, ResourceKey), StableSort(qs, ResourceKey);
    SortedWhole(rs);
    SortedWhole(qs);
    if RenderDigest(rs) == RenderDigest(qs) {
      StreamInjective(Manifests(a), Manifests(b));
      assert forall i :: 0 <= i < |a| ==> a[i] == Resource(Manifests(a)[i], false) == b[i];
    }
  }

  /** The render digest decides the rendered set, resources with one key being one resource. */
  lemma RenderDigestDecides(rs: seq<Resource>, qs: seq<Resource>)
    requires WholeObjects(rs) && WholeObjects(qs)
    ensures RenderDigest(rs) == RenderDigest(qs) ==> multiset(rs) == multiset(qs)
    ensures multiset(rs) == multiset(qs) && KeyDecides(rs, ResourceKey) ==> RenderDigest(rs) == RenderDigest(qs)
  {
    RenderDigestReads(rs, qs);
    StableSortCorrect(rs, ResourceKey);
    StableSortCorrect(qs, ResourceKey);
    if multiset(rs) == multiset(qs) && KeyDecides(rs, ResourceKey) {
      SortForgetsOrder(rs, qs, ResourceKey);
    }
  }

  lemma SwapMultiset(rs: seq<Resource>, i: nat, j: nat)
    requires i < |rs| && j < |rs|
    ensures multiset(rs[i := rs[j]][j := rs[i]]) == multiset(rs)
  {
  }

  lemma {:induction false} ApiGroupReads(g: string, v: string)
    requires '/' !in v
    ensures ApiGroup(g + "/" + v) == g && ApiGroup(v) == ""
  {
    if v == "" {
      assert (g + "/" + v)[..|g|] == g;
    } else {
      var n := |v| - 1;
      ApiGroupReads(g, v[..n]);
      assert (g + "/" + v)[..|g| + 1 + n] == g + "/" + v[..n];
    }
  }

  /** The same group, kind, namespace and name. */
  ghost predicate SameSlot(a: Resource, b: Resource) {
    && ApiGroup(StringAt(a.manifest, ["apiVersion"])) == ApiGroup(StringAt(b.manifest, ["apiVersion"]))
    && StringAt(a.manifest, ["kind"]) == StringAt(b.manifest, ["kind"])
    && StringAt(a.manifest, ["metadata", "namespace"]) == StringAt(b.manifest, ["metadata", "namespace"])
    && StringAt(a.manifest, ["metadata", "name"]) == StringAt(b.manifest, ["metadata", "name"])
  }

  lemma KeyIsSlot(a: Resource, b: Resource)
    ensures ResourceKey(a) == ResourceKey(b) <==> SameSlot(a, b)
  {
    var x, y := ResourceKey(a), ResourceKey(b);
    assert |x| == 4 && |y| == 4;
    assert x == y <==> x[0] == y[0] && x[1] == y[1] && x[2] == y[2] && x[3] == y[3];
  }

  /** The render digest forgets the render order exactly when resources of one group, kind, namespace and
      name are the same resource; two different ones swap to another digest. */
  lemma RenderDigestOrderFree(rs: seq<Resource>)
    requires WholeObjects(rs)
    ensures (forall x, y :: x in rs && y in rs && SameSlot(x, y) ==> x == y) <==>
            forall qs: seq<Resource> :: multiset(qs) == multiset(rs) ==> RenderDigest(qs) == RenderDigest(rs)
  {
    hide RenderDigest, ResourceKey, SameSlot;
    if forall x, y :: x in rs && y in rs && SameSlot(x, y) ==> x == y {
      forall x, y | x in rs && y in rs && ResourceKey(x) == ResourceKey(y) ensures x == y {
        KeyIsSlot(x, y);
      }
      assert KeyDecides(rs, ResourceKey);
      forall qs: seq<Resource> | multiset(qs) == multiset(rs) ensures RenderDigest(qs) == RenderDigest(rs) {
        forall i | 0 <= i < |qs| ensures !qs[i].broken && qs[i].manifest.Obj? {
          assert qs[i] in multiset(rs);
        }
        RenderDigestDecides(rs, qs);
      }
    } else {
      var x, y :| x in rs && y in rs && SameSlot(x, y) && x != y;
      var i, j :| 0 <= i < |rs| && 0 <= j < |rs| && rs[i] == x && rs[j] == y;
      KeyIsSlot(x, y);
      SwapChangesDigest(rs, i, j);
      SwapMultiset(rs, i, j);
    }
  }

  lemma SortKeepsTies(rs: seq<Resource>, k: seq<string>)
    ensures WithKey(StableSort(rs, ResourceKey), ResourceKey, k) == WithKey(rs, ResourceKey, k)
  {
    StableSortCorrect(rs, ResourceKey);
  }

  lemma SwapChangesDigest(rs: seq<Resource>, i: nat, j: nat)
    requires WholeObjects(rs) && i < |rs| && j < |rs|
    requires ResourceKey(rs[i]) == ResourceKey(rs[j]) && rs[i] != rs[j]
    ensures RenderDigest(rs[i := rs[j]][j := rs[i]]) != RenderDigest(rs)
  {
    var qs, k := rs[i := rs[j]][j := rs[i]], ResourceKey(rs[i]);
    assert WithKey(rs, ResourceKey, k) != WithKey(qs, ResourceKey, k) by {
      if WithKey(rs, ResourceKey, k) == WithKey(qs, ResourceKey, k) {
        WithKeyDetermines(rs, qs, ResourceKey, k);
      }
    }
    assert StableSort(rs, ResourceKey) != StableSort(qs, ResourceKey) by {
      SortKeepsTies(rs, k);
      SortKeepsTies(qs, k);
    }
    RenderDigestReads(rs, qs);
  }
}
