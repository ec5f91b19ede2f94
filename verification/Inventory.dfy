/** The owned-resource inventory (internal/inventory). */
module Inventory {
  import opened Ordering
  import opened Json
  import opened Digests

  datatype Entry = Entry(group: string, kind: string, namespace: string, name: string,
                         version: string, component: string)

  /** What the API server tells objects apart by. */
  datatype Ident = Ident(group: string, kind: string, namespace: string, name: string)

  function Id(e: Entry): Ident {
    Ident(e.group, e.kind, e.namespace, e.name)
  }

  predicate K8sIdentityEqual(a: Entry, b: Entry) {
    a.group == b.group && a.kind == b.kind && a.namespace == b.namespace && a.name == b.name
  }

  // Entries of rendered resources

  const LABEL_COMPONENT_NAME := "component.opmodel.dev/name"

  function Count(s: string, c: char): nat {
    if s == "" then 0 else Count(s[..|s| - 1], c) + (if s[|s| - 1] == c then 1 else 0)
  }

  function IndexOf(s: string, c: char): (i: nat)
    ensures i <= |s| && (i < |s| ==> s[i] == c) && c !in s[..i]
  {
    if s == "" || s[0] == c then 0 else IndexOf(s[1..], c) + 1
  }

  /** (group, version, kind) of an unstructured object: nothing at all for an unparsable apiVersion. */
  function GroupVersionKind(m: Value): (string, string, string) {
    var gv, kind := StringAt(m, ["apiVersion"]), StringAt(m, ["kind"]);
    if gv == "" || gv == "/" then ("", "", kind)
    else if Count(gv, '/') == 0 then ("", gv, kind)
    else if Count(gv, '/') == 1 && IndexOf(gv, '/') < |gv|
    then (gv[..IndexOf(gv, '/')], gv[IndexOf(gv, '/') + 1..], kind)
    else ("", "", "")
  }

  function NewEntryFromResource(m: Value): Entry {
    var (group, version, kind) := GroupVersionKind(m);
    Entry(group, kind, StringAt(m, ["metadata", "namespace"]), StringAt(m, ["metadata", "name"]),
          version, StringAt(m, ["metadata", "labels", LABEL_COMPONENT_NAME]))
  }

  // What an entry says

  lemma {:induction false} CountZero(s: string, c: char)
    ensures Count(s, c) == 0 <==> c !in s
  {
    if s != "" {
      CountZero(s[..|s| - 1], c);
      assert s == s[..|s| - 1] + [s[|s| - 1]];
    }
  }

  lemma {:induction false} CountAppend(a: string, b: string, c: char)
    ensures Count(a + b, c) == Count(a, c) + Count(b, c)
  {
    if b == "" {
      assert a + b == a;
    } else {
      var n := |b| - 1;
      assert (a + b)[..|a| + n] == a + b[..n];
      CountAppend(a, b[..n], c);
    }
  }

  /** The group of an apiVersion: what stands before its one "/", nothing without one. */
  ghost predicate GroupIs(apiVersion: string, group: string) {
    || (group == "" && '/' !in apiVersion)
    || ('/' !in group && exists v :: VersionAfter(apiVersion, group, v))
  }

  ghost predicate VersionAfter(apiVersion: string, group: string, version: string) {
    '/' !in version && apiVersion == group + "/" + version
  }

  lemma OneSlash(g: string, v: string)
    requires '/' !in g && '/' !in v
    ensures Count(g + "/" + v, '/') == 1 && IndexOf(g + "/" + v, '/') == |g|
  {
    var gv := g + "/" + v;
    CountZero(g, '/');
    CountZero(v, '/');
    CountAppend(g + "/", v, '/');
    CountAppend(g, "/", '/');
    assert "/"[..0] == "";
    assert gv[|g|] == '/' && gv[..|g|] == g;
  }

  lemma SplitsAtSlash(gv: string)
    requires Count(gv, '/') == 1
    ensures var i := IndexOf(gv, '/');
            i < |gv| && gv == gv[..i] + "/" + gv[i + 1..] && '/' !in gv[..i] && '/' !in gv[i + 1..]
  {
    hide Count, IndexOf;
    var i := IndexOf(gv, '/');
    CountZero(gv, '/');
    assert gv[..|gv|] == gv;
    var g, v := gv[..i], gv[i + 1..];
    assert gv == g + "/" + v;
    CountAppend(g + "/", v, '/');
    CountAppend(g, "/", '/');
    SlashAlone();
    CountZero(v, '/');
  }

  /** apiVersion "g/v" is read as group g and version v, one without "/" as a version of the core group, and
      one with more than one "/" leaves group, version and kind empty. */
  lemma ApiVersionReads(m: Value, g: string, v: string)
    ensures var gv, kind := StringAt(m, ["apiVersion"]), StringAt(m, ["kind"]);
            && ('/' !in g && VersionAfter(gv, g, v) ==> GroupVersionKind(m) == (g, v, kind))
            && ('/' !in gv ==> GroupVersionKind(m) == ("", gv, kind))
            && (Count(gv, '/') > 1 ==> GroupVersionKind(m) == ("", "", ""))
  {
    hide Count, IndexOf;
    var gv := StringAt(m, ["apiVersion"]);
    CountZero(gv, '/');
    if '/' !in g && VersionAfter(gv, g, v) {
      OneSlash(g, v);
      assert gv[..|g|] == g && gv[|g| + 1..] == v;
      if gv == "/" {
        assert g == "" && v == "";
      }
    } else if Count(gv, '/') > 1 {
      CountZero("", '/');
      SlashAlone();
    }
  }

  lemma SlashAlone()
    ensures Count("/", '/') == 1
  {
    assert "/"[..0] == "";
  }

  predicate Parsable(m: Value) {
    Count(StringAt(m, ["apiVersion"]), '/') <= 1
  }

  lemma NoVersion(gv: string)
    requires '/' !in gv
    ensures forall g, v :: !VersionAfter(gv, g, v)
  {
    forall g: string, v: string ensures !VersionAfter(gv, g, v) {
      assert (g + "/" + v)[|g|] == '/';
    }
  }

  lemma GroupExists(m: Value)
    requires Parsable(m)
    ensures var gv := StringAt(m, ["apiVersion"]);
            && GroupIs(gv, GroupVersionKind(m).0) && GroupVersionKind(m).2 == StringAt(m, ["kind"])
            && forall g :: GroupIs(gv, g) ==> g == GroupVersionKind(m).0
  {
    hide Count, IndexOf, GroupVersionKind;
    var gv := StringAt(m, ["apiVersion"]);
    CountZero(gv, '/');
    if Count(gv, '/') == 0 {
      ApiVersionReads(m, "", "");
      NoVersion(gv);
    } else {
      SplitsAtSlash(gv);
      var i := IndexOf(gv, '/');
      assert VersionAfter(gv, gv[..i], gv[i + 1..]);
      ApiVersionReads(m, gv[..i], gv[i + 1..]);
      forall g | GroupIs(gv, g) ensures g == gv[..i] {
        var v :| VersionAfter(gv, g, v);
        OneSlash(g, v);
        assert gv[..|g|] == g;
      }
    }
  }

  /** The fields of an entry are the manifest's: group and version of its apiVersion, kind, namespace, name,
      and the component label. */
  lemma EntryReads(m: Value)
    ensures var e := NewEntryFromResource(m);
            && e.namespace == StringAt(m, ["metadata", "namespace"]) && e.name == StringAt(m, ["metadata", "name"])
            && e.component == StringAt(m, ["metadata", "labels", "component.opmodel.dev/name"])
            && (Parsable(m) ==> e.kind == StringAt(m, ["kind"]) && GroupIs(StringAt(m, ["apiVersion"]), e.group))
            && (!Parsable(m) ==> e.kind == "" && e.group == "" && e.version == "")
  {
    hide Count, IndexOf, GroupVersionKind, GroupIs;
    if Parsable(m) {
      GroupExists(m);
    } else {
      ApiVersionReads(m, "", "");
    }
  }

  /** Two manifests name one object exactly when group, kind, namespace and name agree. */
  lemma IdentityExactly(a: Value, b: Value)
    requires Parsable(a) && Parsable(b)
    ensures Id(NewEntryFromResource(a)) == Id(NewEntryFromResource(b)) <==>
            && (exists g :: GroupIs(StringAt(a, ["apiVersion"]), g) && GroupIs(StringAt(b, ["apiVersion"]), g))
            && StringAt(a, ["kind"]) == StringAt(b, ["kind"])
            && StringAt(a, ["metadata", "namespace"]) == StringAt(b, ["metadata", "namespace"])
            && StringAt(a, ["metadata", "name"]) == StringAt(b, ["metadata", "name"])
  {
    hide Count, IndexOf, GroupVersionKind, GroupIs;
    GroupExists(a);
    GroupExists(b);
  }

  /** A conversion fails when the value does not marshal or is not an object. */
  predicate Convertible(rs: seq<Resource>) {
    forall i :: 0 <= i < |rs| ==> !rs[i].broken && rs[i].manifest.Obj?
  }

  function EntriesOf(rs: seq<Resource>): (es: seq<Entry>)
    ensures |es| == |rs| && forall i :: 0 <= i < |rs| ==> es[i] == NewEntryFromResource(rs[i].manifest)
  {
    seq(|rs|, i requires 0 <= i < |rs| => NewEntryFromResource(rs[i].manifest))
  }

  /** buildInventoryEntries: the loop over the rendered resources, leaving at the first error. */
  method BuildInventoryEntries(rs: seq<Resource>) returns (es: Option<seq<Entry>>)
    ensures es == if Convertible(rs) then Some(EntriesOf(rs)) else None
  {
    var built: seq<Entry> := [];
    for i := 0 to |rs|
      invariant |built| == i
      invariant forall k :: 0 <= k < i ==> !rs[k].broken && rs[k].manifest.Obj?
      invariant forall k :: 0 <= k < i ==> built[k] == NewEntryFromResource(rs[k].manifest)
    {
      if rs[i].broken || !rs[i].manifest.Obj? {
        return None;
      }
      built := built + [NewEntryFromResource(rs[i].manifest)];
    }
    assert built == EntriesOf(rs);
    return Some(built);
  }

  // Stale set

  predicate Kept(e: Entry, current: seq<Entry>) {
    exists c :: c in current && K8sIdentityEqual(e, c)
  }

  function StaleSet(previous: seq<Entry>, current: seq<Entry>): seq<Entry> {
    if previous == [] then []
    else
      var e := previous[|previous| - 1];
      StaleSet(previous[..|previous| - 1], current) + (if Kept(e, current) then [] else [e])
  }

  /** The nested loops with their found flag and break. */
  method ComputeStaleSet(previous: seq<Entry>, current: seq<Entry>) returns (stale: seq<Entry>)
    ensures stale == StaleSet(previous, current)
  {
    if |previous| == 0 {
      return [];
    }
    stale := [];
    for i := 0 to |previous|
      invariant stale == StaleSet(previous[..i], current)
    {
      var found := false;
      for j := 0 to |current|
        invariant !found && forall k :: 0 <= k < j ==> !K8sIdentityEqual(previous[i], current[k])
      {
        if K8sIdentityEqual(previous[i], current[j]) {
          found := true;
          break;
        }
      }
      if !found {
        stale := stale + [previous[i]];
      }
      assert previous[..i + 1][..i] == previous[..i];
    }
    assert previous[..|previous|] == previous;
  }

  lemma {:induction false} StaleAppend(a: seq<Entry>, b: seq<Entry>, current: seq<Entry>)
    ensures StaleSet(a + b, current) == StaleSet(a, current) + StaleSet(b, current)
  {
    hide Kept;
    if b == [] {
      assert a + b == a;
    } else {
      var n := |b| - 1;
      assert (a + b)[..|a| + n] == a + b[..n];
      StaleAppend(a, b[..n], current);
    }
  }

  /** The stale entries of a list are those of its parts, in order and duplicates included; a single entry is
      stale exactly when nothing current has its identity. */
  lemma StaleInOrder(a: seq<Entry>, b: seq<Entry>, current: seq<Entry>, e: Entry)
    ensures StaleSet(a + b, current) == StaleSet(a, current) + StaleSet(b, current)
    ensures StaleSet([e], current) == if exists c :: c in current && Id(c) == Id(e) then [] else [e]
  {
    StaleAppend(a, b, current);
    assert [e][..0] == [];
    if Kept(e, current) {
      var c :| c in current && K8sIdentityEqual(e, c);
      assert Id(c) == Id(e);
    }
  }

  /** An entry is stale exactly when it was there and nothing current has its identity, so
      version bumps and component renames never make a live object stale. */
  lemma {:induction false} StaleExactly(previous: seq<Entry>, current: seq<Entry>, e: Entry)
    ensures e in StaleSet(previous, current) <==> e in previous && !Kept(e, current)
    ensures e in StaleSet(previous, current) ==> forall c :: c in current ==> Id(c) != Id(e)
  {
    if previous != [] {
      var n := |previous| - 1;
      StaleExactly(previous[..n], current, e);
      assert previous == previous[..n] + [previous[n]];
    }
  }

  // Inventory digest

  function EntryKey(e: Entry): seq<string> {
    [e.group, e.kind, e.namespace, e.name, e.component, e.version]
  }

  function Field(name: string, value: string, omitEmpty: bool): seq<Member> {
    if omitEmpty && value == "" then [] else [Member(name, Str(value))]
  }

  /** The struct fields in declaration order, the optional ones left out when empty. */
  function EntryJson(e: Entry): Value {
    Obj(Field("group", e.group, true) + Field("kind", e.kind, false) + Field("namespace", e.namespace, true)
        + Field("name", e.name, false) + Field("v", e.version, true) + Field("component", e.component, true))
  }

  function EntriesJson(es: seq<Entry>): (vs: seq<Value>)
    ensures |vs| == |es| && forall i :: 0 <= i < |es| ==> vs[i] == EntryJson(es[i])
  {
    seq(|es|, i requires 0 <= i < |es| => EntryJson(es[i]))
  }

  function ComputeDigest(entries: seq<Entry>): Digest {
    if entries == [] then Sha256("")
    else Sha256(Text(Arr(EntriesJson(StableSort(entries, EntryKey)))))
  }

  lemma {:induction false} FindAppend(ms: seq<Member>, ns: seq<Member>, name: string)
    ensures Find(ms + ns, name) == if Find(ns, name).Some? then Find(ns, name) else Find(ms, name)
  {
    if ns == [] {
      assert ms + ns == ms;
    } else {
      var n := |ns| - 1;
      assert (ms + ns)[..|ms| + n] == ms + ns[..n];
      FindAppend(ms, ns[..n], name);
    }
  }

  lemma FindField(name: string, value: string, omitEmpty: bool, asked: string)
    ensures Find(Field(name, value, omitEmpty), asked) ==
            if asked == name && !(omitEmpty && value == "") then Some(Str(value)) else None
  {
    if !(omitEmpty && value == "") {
      assert Find([Member(name, Str(value))][..0], asked) == None;
    }
  }

  lemma EntryJsonReads(e: Entry, asked: string)
    ensures StringAt(EntryJson(e), [asked]) ==
            (match asked
             case "group" => e.group case "kind" => e.kind case "namespace" => e.namespace
             case "name" => e.name case "v" => e.version case "component" => e.component case _ => "")
  {
    var g, k := Field("group", e.group, true), Field("kind", e.kind, false);
    var s, n := Field("namespace", e.namespace, true), Field("name", e.name, false);
    var v, c := Field("v", e.version, true), Field("component", e.component, true);
    FindAppend(g, k, asked);
    FindAppend(g + k, s, asked);
    FindAppend(g + k + s, n, asked);
    FindAppend(g + k + s + n, v, asked);
    FindAppend(g + k + s + n + v, c, asked);
    FindField("group", e.group, true, asked);
    FindField("kind", e.kind, false, asked);
    FindField("namespace", e.namespace, true, asked);
    FindField("name", e.name, false, asked);
    FindField("v", e.version, true, asked);
    FindField("component", e.component, true, asked);
    var found := Find(EntryJson(e).members, asked);
    assert At(EntryJson(e), [asked]) == match found case Some(w) => At(w, []) case None => None;
  }

  lemma EntryJsonInjective(a: Entry, b: Entry)
    requires EntryJson(a) == EntryJson(b)
    ensures a == b
  {
    EntryJsonReads(a, "group");     EntryJsonReads(b, "group");
    EntryJsonReads(a, "kind");      EntryJsonReads(b, "kind");
    EntryJsonReads(a, "namespace"); EntryJsonReads(b, "namespace");
    EntryJsonReads(a, "name");      EntryJsonReads(b, "name");
    EntryJsonReads(a, "v");         EntryJsonReads(b, "v");
    EntryJsonReads(a, "component"); EntryJsonReads(b, "component");
  }

  lemma EntryKeyDecides(es: seq<Entry>)
    ensures KeyDecides(es, EntryKey)
  {
    forall a, b | a in es && b in es && EntryKey(a) == EntryKey(b) ensures a == b {
      var x, y := EntryKey(a), EntryKey(b);
      assert x[0] == y[0] && x[1] == y[1] && x[2] == y[2] && x[3] == y[3] && x[4] == y[4] && x[5] == y[5];
    }
  }

  /** Two inventories have one digest exactly when they hold the same entries, whatever
      their order; the empty inventory shares its digest with no other. */
  lemma InventoryDigestDecides(a: seq<Entry>, b: seq<Entry>)
    ensures ComputeDigest(a) == ComputeDigest(b) <==> multiset(a) == multiset(b)
  {
    var s, t := StableSort(a, EntryKey), StableSort(b, EntryKey);
    if multiset(a) == multiset(b) {
      assert |a| == |multiset(a)| == |multiset(b)| == |b|;
      EntryKeyDecides(a);
      SortForgetsOrder(a, b, EntryKey);
    } else if ComputeDigest(a) == ComputeDigest(b) {
      Head(Arr(EntriesJson(s)), "");
      Head(Arr(EntriesJson(t)), "");
      TextInjective(Arr(EntriesJson(s)), Arr(EntriesJson(t)));
      SameJsonSameEntries(s, t);
      StableSortCorrect(a, EntryKey);
      StableSortCorrect(b, EntryKey);
      assert false;
    }
  }

  lemma SameJsonSameEntries(s: seq<Entry>, t: seq<Entry>)
    requires EntriesJson(s) == EntriesJson(t)
    ensures s == t
  {
    forall i | 0 <= i < |s| ensures s[i] == t[i] {
      assert EntriesJson(s)[i] == EntriesJson(t)[i];
      EntryJsonInjective(s[i], t[i]);
    }
  }
}
