/** The cluster as the controller sees it: one object per identity, server-side apply
    under the one field manager "opm-controller", labels read from the live object. */
module Cluster {
  import opened Json
  import opened Inventory

  /** `owned` is the manifest the manager last applied, `foreign` every other field by path. */
  datatype Object = Object(owned: Value, foreign: map<seq<string>, string>)

  type State = map<Ident, Object>

  const LABEL_MANAGED_BY := "app.kubernetes.io/managed-by"
  const LABEL_RELEASE_UUID := "module-release.opmodel.dev/uuid"

  function LabelPath(key: string): seq<string> {
    ["metadata", "labels", key]
  }

  /** A live label, "" when the object does not carry it. */
  function Label(o: Object, key: string): string {
    match At(o.owned, LabelPath(key))
    case Some(Str(s)) => s
    case _ => if LabelPath(key) in o.foreign then o.foreign[LabelPath(key)] else ""
  }

  predicate IsOPMManagedBy(value: string) {
    value == "opm-cli" || value == "opm-controller" || value == "open-platform-model"
  }

  function IdOf(m: Value): Ident {
    Id(NewEntryFromResource(m))
  }

  function Get(c: State, id: Ident): Option<Object> {
    if id in c then Some(c[id]) else None
  }

  function ForeignOf(o: Option<Object>): map<seq<string>, string> {
    match o
    case Some(x) => x.foreign
    case None => map[]
  }

  /** Server-side apply of one manifest: its fields become owned, the fields the manager
      owned before and no longer sets go away, fields of others stay. */
  function Merge(live: Option<Object>, m: Value): Object {
    var f := ForeignOf(live);
    Object(m, map p | p in f && !Sets(m, p) :: f[p])
  }

  /** After an apply the labels a manifest sets are its own, and a label others set stays unless the manifest
      has something at its place. */
  lemma LabelsAfterApply(o: Object, m: Value, key: string)
    ensures var after := Merge(Some(o), m);
            && (forall s :: At(m, LabelPath(key)) == Some(Str(s)) ==> Label(after, key) == s)
            && (At(m, LabelPath(key)) == None && !Sets(m, LabelPath(key)) ==>
                  Label(after, key) == if LabelPath(key) in o.foreign then o.foreign[LabelPath(key)] else "")
  {
  }

  /** Applies, in order, the manifests `done` holds for. */
  function Apply(c: State, ms: seq<Value>, done: nat -> bool): State {
    if ms == [] then c
    else
      var n := |ms| - 1;
      var c' := Apply(c, ms[..n], done);
      if done(n) then c'[IdOf(ms[n]) := Merge(Get(c', IdOf(ms[n])), ms[n])] else c'
  }

  lemma ApplyStep(c: State, ms: seq<Value>, done: nat -> bool, i: nat)
    requires i < |ms|
    ensures var c' := Apply(c, ms[..i], done);
            Apply(c, ms[..i + 1], done) == if done(i) then c'[IdOf(ms[i]) := Merge(Get(c', IdOf(ms[i])), ms[i])] else c'
  {
    assert ms[..i + 1][..i] == ms[..i];
  }

  const EVERY: nat -> bool := (i: nat) => true

  // One identity at a time

  /** What applying does to the object of one identity. */
  ghost function After(o: Option<Object>, ms: seq<Value>, done: nat -> bool, id: Ident): Option<Object> {
    if ms == [] then o
    else
      var n := |ms| - 1;
      var o' := After(o, ms[..n], done, id);
      if done(n) && IdOf(ms[n]) == id then Some(Merge(o', ms[n])) else o'
  }

  lemma {:induction false} ApplyPointwise(c: State, ms: seq<Value>, done: nat -> bool, id: Ident)
    ensures Get(Apply(c, ms, done), id) == After(Get(c, id), ms, done, id)
  {
    if ms != [] {
      ApplyPointwise(c, ms[..|ms| - 1], done, id);
    }
  }

  /** The last manifest applied for an identity. */
  ghost function LastFor(ms: seq<Value>, done: nat -> bool, id: Ident): Option<Value> {
    if ms == [] then None
    else
      var n := |ms| - 1;
      if done(n) && IdOf(ms[n]) == id then Some(ms[n]) else LastFor(ms[..n], done, id)
  }

  /** No manifest applied for `id` sets the path. */
  ghost predicate Unclaimed(ms: seq<Value>, done: nat -> bool, id: Ident, p: seq<string>) {
    if ms == [] then true
    else
      var n := |ms| - 1;
      Unclaimed(ms[..n], done, id, p) && !(done(n) && IdOf(ms[n]) == id && Sets(ms[n], p))
  }

  lemma {:induction false} AfterOwned(o: Option<Object>, ms: seq<Value>, done: nat -> bool, id: Ident)
    ensures LastFor(ms, done, id).None? ==> After(o, ms, done, id) == o
    ensures LastFor(ms, done, id).Some? ==>
              After(o, ms, done, id).Some? && After(o, ms, done, id).value.owned == LastFor(ms, done, id).value
  {
    if ms != [] {
      AfterOwned(o, ms[..|ms| - 1], done, id);
    }
  }

  lemma {:induction false} AfterForeign(o: Option<Object>, ms: seq<Value>, done: nat -> bool, id: Ident, p: seq<string>)
    ensures var f := ForeignOf(After(o, ms, done, id));
            && (p in f <==> p in ForeignOf(o) && Unclaimed(ms, done, id, p))
            && (p in f ==> f[p] == ForeignOf(o)[p])
  {
    if ms != [] {
      AfterForeign(o, ms[..|ms| - 1], done, id, p);
    }
  }

  lemma {:induction false} EveryCovers(ms: seq<Value>, done: nat -> bool, id: Ident, p: seq<string>)
    ensures LastFor(ms, EVERY, id).None? ==> LastFor(ms, done, id).None?
    ensures Unclaimed(ms, EVERY, id, p) ==> Unclaimed(ms, done, id, p)
  {
    if ms != [] {
      EveryCovers(ms[..|ms| - 1], done, id, p);
    }
  }

  /** Applying everything after any partial application gives what applying everything at
      once gives, even when two manifests share an identity. */
  lemma ApplyAbsorbs(o: Option<Object>, ms: seq<Value>, done: nat -> bool, id: Ident)
    ensures After(After(o, ms, done, id), ms, EVERY, id) == After(o, ms, EVERY, id)
  {
    var x := After(o, ms, done, id);
    var a, b := After(x, ms, EVERY, id), After(o, ms, EVERY, id);
    AfterOwned(o, ms, done, id);
    AfterOwned(o, ms, EVERY, id);
    AfterOwned(x, ms, EVERY, id);
    EveryCovers(ms, done, id, []);
    forall p
      ensures p in ForeignOf(a) <==> p in ForeignOf(b)
      ensures p in ForeignOf(a) ==> ForeignOf(a)[p] == ForeignOf(b)[p]
    {
      AfterForeign(o, ms, done, id, p);
      AfterForeign(o, ms, EVERY, id, p);
      AfterForeign(x, ms, EVERY, id, p);
      EveryCovers(ms, done, id, p);
    }
    assert ForeignOf(a) == ForeignOf(b);
  }

  lemma {:induction false} LastForMember(ms: seq<Value>, i: nat)
    requires i < |ms|
    ensures LastFor(ms, EVERY, IdOf(ms[i])).Some?
  {
    if i < |ms| - 1 {
      LastForMember(ms[..|ms| - 1], i);
    }
  }

  lemma {:induction false} LastForNone(ms: seq<Value>, done: nat -> bool, id: Ident)
    requires forall i :: 0 <= i < |ms| ==> IdOf(ms[i]) != id
    ensures LastFor(ms, done, id).None?
  {
    if ms != [] {
      LastForNone(ms[..|ms| - 1], done, id);
    }
  }
}
