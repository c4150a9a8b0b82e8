/** Locale overlays of an adventure package: what they may replace, and why checking all of them first is enough. */
module Locales {
  import opened Values
  import opened GraphModel
  import opened GraphValidation

  /** The records of a package by kind and identifier. */
  type Entities = map<string, map<string, Fields>>

  /** One overlay file.  `sound`: its schema, its locale and its shape are right. */
  datatype Patch = Patch(sound: bool, kind: string, id: string, fields: Fields)

  const ADVENTURE := "adventure"

  /** The fields that an overlay may replace. */
  function Localized(kind: string): set<Key> {
    if kind == ADVENTURE then {KName, KSummary, KTutorial}
    else if kind == "scene" then {KName, KDescription}
    else if kind == "npc" then {KName, KDescription, KSummary}
    else if kind == "map_location" then {KName, KDescription}
    else if kind == "encounter_catalog" then {KName, KLabels}
    else {}
  }

  predicate Exists(e: Entities, kind: string, id: string) { kind in e && id in e[kind] }

  // ---- applying overlays ----

  function Merged(e: Entities, p: Patch): Option<Entities> {
    if !p.sound || !Exists(e, p.kind, p.id) || !(p.fields.Keys <= Localized(p.kind)) then None
    else Some(e[p.kind := e[p.kind][p.id := e[p.kind][p.id] + p.fields]])
  }

  /** The files of one overlay, in order. */
  function Overlaid(e: Entities, patches: seq<Patch>): Option<Entities> {
    if patches == [] then Some(e)
    else
      var t :- Overlaid(e, patches[..|patches| - 1]);
      Merged(t, patches[|patches| - 1])
  }

  /** The overlays of a package by locale; a locale without a directory is missing. */
  type Overlays = map<string, seq<Patch>>

  function Applied(e: Entities, overlays: Overlays, locale: string): Option<Entities> {
    if locale in overlays then Overlaid(e, overlays[locale]) else None
  }

  // ---- choosing the locale ----

  function Dashed(s: string): (r: string)
    ensures |r| == |s| && forall i :: 0 <= i < |s| ==> r[i] == if s[i] == '_' then '-' else s[i]
  {
    Map((c: char) => if c == '_' then '-' else c, s)
  }

  /** The text before the first dash. */
  function Base(s: string): (r: string)
    ensures r <= s && '-' !in r && (r == s || s[|r|] == '-')
  {
    if s == "" || s[0] == '-' then "" else [s[0]] + Base(s[1..])
  }

  /** The i-th locale is the first one of the language. */
  predicate FirstAt(supported: seq<string>, base: string, lower: string -> string, i: nat)
    requires i < |supported|
  {
    lower(Base(supported[i])) == base && forall j :: 0 <= j < i ==> lower(Base(supported[j])) != base
  }

  function FirstWithBase(supported: seq<string>, base: string, lower: string -> string): (r: Option<string>)
    ensures r.Some? ==>
              exists i :: 0 <= i < |supported| && FirstAt(supported, base, lower, i) && supported[i] == r.value
    ensures r.None? ==> forall l :: l in supported ==> lower(Base(l)) != base
  {
    if supported == [] then None
    else if lower(Base(supported[0])) == base then
      assert FirstAt(supported, base, lower, 0);
      Some(supported[0])
    else
      var r := FirstWithBase(supported[1..], base, lower);
      assert r.Some? ==>
          exists i :: 0 <= i < |supported| && FirstAt(supported, base, lower, i) && supported[i] == r.value by {
        if r.Some? {
          var i :| 0 <= i < |supported| - 1 && FirstAt(supported[1..], base, lower, i) && supported[1..][i] == r.value;
          assert forall j :: 1 <= j < i + 1 ==> supported[j] == supported[1..][j - 1];
          assert FirstAt(supported, base, lower, i + 1);
        }
      }
      r
  }

  /** The requested locale if it is supported, else one of the same language, else the default. */
  function ActiveLocale(supported: seq<string>, default: string, requested: string, lower: string -> string)
    : (r: string)
    requires default in supported
    ensures r in supported
    ensures Dashed(requested) in supported ==> r == Dashed(requested)
    ensures var base := lower(Base(Dashed(requested)));
      Dashed(requested) !in supported ==>
        if exists l :: l in supported && lower(Base(l)) == base
        then exists i :: 0 <= i < |supported| && FirstAt(supported, base, lower, i) && supported[i] == r
        else r == default
  {
    if Dashed(requested) in supported then Dashed(requested)
    else
      var close := FirstWithBase(supported, lower(Base(Dashed(requested))), lower);
      if close.Some? then close.value else default
  }

  // ---- loading ----

  lemma MergedIff(e: Entities, p: Patch)
    ensures Merged(e, p).Some? <==> p.sound && Exists(e, p.kind, p.id) && p.fields.Keys <= Localized(p.kind)
    ensures Merged(e, p).Some? ==> Merged(e, p).value == e[p.kind := e[p.kind][p.id := e[p.kind][p.id] + p.fields]]
  {}

  lemma {:induction false} StopsAt(e: Entities, patches: seq<Patch>, n: nat)
    requires n <= |patches| && Overlaid(e, patches[..n]).None?
    ensures Overlaid(e, patches).None?
    decreases |patches| - n
  {
    hide Merged;
    if n < |patches| {
      assert patches[..n + 1][..n] == patches[..n];
      StopsAt(e, patches, n + 1);
    } else {
      assert patches[..n] == patches;
    }
  }

  /** Every declared overlay applies to the records as they are. */
  predicate AllApply(e: Entities, overlays: Overlays, supported: seq<string>) {
    forall l :: l in supported ==> Applied(e, overlays, l).Some?
  }

  function Loaded(e: Entities, overlays: Overlays, default: string, active: string): Option<Entities> {
    var t :- Applied(e, overlays, default);
    if active == default then Some(t) else Applied(t, overlays, active)
  }

  ghost predicate SameFields(f: Fields, g: Fields, free: set<Key>) {
    (forall k :: k !in free ==> (k in f <==> k in g) && (k in f ==> g[k] == f[k]))
  }

  /** The same records, differing at most in fields that may be localised. */
  ghost predicate SameMechanics(e: Entities, t: Entities) {
    && t.Keys == e.Keys
    && (forall kind :: kind in e ==> t[kind].Keys == e[kind].Keys)
    && forall kind, id :: Exists(e, kind, id) ==> SameFields(e[kind][id], t[kind][id], Localized(kind))
  }

  lemma SameMechanicsSteps(e: Entities, t: Entities, u: Entities)
    requires SameMechanics(e, t) && SameMechanics(t, u)
    ensures SameMechanics(e, u)
  {
    forall kind, id | Exists(e, kind, id) ensures SameFields(e[kind][id], u[kind][id], Localized(kind)) {
      assert Exists(t, kind, id);
    }
  }

  lemma MergedKeepsMechanics(e: Entities, p: Patch)
    requires Merged(e, p).Some?
    ensures SameMechanics(e, Merged(e, p).value)
  {
    hide Localized;
  }

  lemma Unchanged(e: Entities)
    ensures SameMechanics(e, e)
  {}

  lemma {:induction false} OverlaidKeepsMechanics(e: Entities, patches: seq<Patch>)
    ensures Overlaid(e, patches).Some? ==> SameMechanics(e, Overlaid(e, patches).value)
  {
    hide Merged, SameMechanics;
    if patches == [] {
      Unchanged(e);
    } else {
      OverlaidKeepsMechanics(e, patches[..|patches| - 1]);
      if Overlaid(e, patches).Some? {
        var t := Overlaid(e, patches[..|patches| - 1]).value;
        MergedKeepsMechanics(t, patches[|patches| - 1]);
        SameMechanicsSteps(e, t, Overlaid(e, patches).value);
      }
    }
  }

  lemma SameRecords(e: Entities, t: Entities, kind: string, id: string)
    requires SameMechanics(e, t)
    ensures Exists(e, kind, id) <==> Exists(t, kind, id)
  {}

  /** Whether an overlay applies depends only on which records there are, so it cannot be spoilt by another one. */
  lemma {:induction false} ApplyingDependsOnRecords(e: Entities, t: Entities, patches: seq<Patch>)
    requires SameMechanics(e, t)
    ensures Overlaid(e, patches).Some? <==> Overlaid(t, patches).Some?
  {
    hide Merged, SameMechanics, Localized;
    if patches != [] {
      var rest, p := patches[..|patches| - 1], patches[|patches| - 1];
      ApplyingDependsOnRecords(e, t, rest);
      if Overlaid(e, rest).Some? {
        OverlaidKeepsMechanics(e, rest);
        OverlaidKeepsMechanics(t, rest);
        SameRecords(e, Overlaid(e, rest).value, p.kind, p.id);
        SameRecords(t, Overlaid(t, rest).value, p.kind, p.id);
        SameRecords(e, t, p.kind, p.id);
        MergedIff(Overlaid(e, rest).value, p);
        MergedIff(Overlaid(t, rest).value, p);
      }
    }
  }

  /** Once every declared overlay has applied to a copy, loading under any of the declared locales succeeds. */
  lemma PrecheckSuffices(e: Entities, overlays: Overlays, supported: seq<string>, default: string, active: string)
    requires AllApply(e, overlays, supported) && default in supported && active in supported
    ensures Applied(e, overlays, default).Some? && Loaded(e, overlays, default, active).Some?
  {
    hide Overlaid, SameMechanics;
    assert Applied(e, overlays, default).Some? && Applied(e, overlays, active).Some?;
    OverlaidKeepsMechanics(e, overlays[default]);
    ApplyingDependsOnRecords(e, Overlaid(e, overlays[default]).value, overlays[active]);
  }

  // ---- what loading changes ----

  /** The file gives the record this field. */
  predicate Gives(p: Patch, kind: string, id: string, k: Key) { p.kind == kind && p.id == id && k in p.fields }

  /** The i-th file is the last one that does. */
  predicate LastGiving(patches: seq<Patch>, kind: string, id: string, k: Key, i: nat) {
    i < |patches| && Gives(patches[i], kind, id, k) && forall j :: i < j < |patches| ==> !Gives(patches[j], kind, id, k)
  }

  predicate Silent(patches: seq<Patch>, kind: string, id: string, k: Key) {
    forall j :: 0 <= j < |patches| ==> !Gives(patches[j], kind, id, k)
  }

  /** The record has the field, with the value that the i-th file gives it. */
  predicate TakenFrom(t: Entities, kind: string, id: string, k: Key, patches: seq<Patch>, i: nat)
    requires Exists(t, kind, id)
  {
    i < |patches| && k in patches[i].fields && k in t[kind][id] && t[kind][id][k] == patches[i].fields[k]
  }

  predicate SameField(e: Entities, t: Entities, kind: string, id: string, k: Key)
    requires Exists(e, kind, id) && Exists(t, kind, id)
  {
    (k in t[kind][id] <==> k in e[kind][id]) && (k in e[kind][id] ==> t[kind][id][k] == e[kind][id][k])
  }

  /** Only the patched record is another one, and it has the file's fields over its own. */
  lemma MergedRecord(e: Entities, p: Patch, kind: string, id: string)
    requires Merged(e, p).Some? && Exists(e, kind, id)
    ensures var t := Merged(e, p).value;
      Exists(t, kind, id)
      && t[kind][id] == if p.kind == kind && p.id == id then e[kind][id] + p.fields else e[kind][id]
  {
    hide Localized;
  }

  lemma OverField(f: Fields, g: Fields, k: Key)
    ensures k in f + g <==> k in f || k in g
    ensures k in g ==> (f + g)[k] == g[k]
    ensures k in f && k !in g ==> (f + g)[k] == f[k]
  {}

  lemma MergedField(e: Entities, p: Patch, kind: string, id: string, k: Key)
    requires Merged(e, p).Some? && Exists(e, kind, id)
    ensures var t := Merged(e, p).value;
      && Exists(t, kind, id)
      && (Gives(p, kind, id, k) ==> TakenFrom(t, kind, id, k, [p], 0))
      && (!Gives(p, kind, id, k) ==> SameField(e, t, kind, id, k))
  {
    hide Merged;
    MergedRecord(e, p, kind, id);
    OverField(e[kind][id], p.fields, k);
  }

  lemma LastOfMore(rest: seq<Patch>, p: Patch, kind: string, id: string, k: Key)
    ensures Gives(p, kind, id, k) ==> forall i: nat :: LastGiving(rest + [p], kind, id, k, i) ==> i == |rest|
    ensures !Gives(p, kind, id, k) ==> forall i: nat :: LastGiving(rest + [p], kind, id, k, i) ==>
              LastGiving(rest, kind, id, k, i)
    ensures Silent(rest + [p], kind, id, k) ==> Silent(rest, kind, id, k) && !Gives(p, kind, id, k)
  {
    var all := rest + [p];
    assert all[|rest|] == p;
    forall i: nat | LastGiving(all, kind, id, k, i) && !Gives(p, kind, id, k) ensures LastGiving(rest, kind, id, k, i) {
      forall j | i < j < |rest| ensures !Gives(rest[j], kind, id, k) { assert all[j] == rest[j]; }
    }
    if Silent(all, kind, id, k) {
      forall j | 0 <= j < |rest| ensures !Gives(rest[j], kind, id, k) { assert all[j] == rest[j]; }
    }
  }

  lemma NoneGiving(kind: string, id: string, k: Key)
    ensures forall i: nat :: !LastGiving([], kind, id, k, i)
  {}

  lemma {:induction false} OverlaidField(e: Entities, patches: seq<Patch>, kind: string, id: string, k: Key)
    requires Overlaid(e, patches).Some? && Exists(e, kind, id)
    ensures var t := Overlaid(e, patches).value;
      && Exists(t, kind, id)
      && (forall i: nat :: LastGiving(patches, kind, id, k, i) ==> TakenFrom(t, kind, id, k, patches, i))
      && (Silent(patches, kind, id, k) ==> SameField(e, t, kind, id, k))
  {
    hide Merged, Gives, LastGiving, Silent, Exists;
    if patches != [] {
      var n := |patches| - 1;
      var rest, p := patches[..n], patches[n];
      assert patches == rest + [p];
      OverlaidField(e, rest, kind, id, k);
      MergedField(Overlaid(e, rest).value, p, kind, id, k);
      LastOfMore(rest, p, kind, id, k);
    } else {
      NoneGiving(kind, id, k);
    }
  }

  /** The field of a loaded record: what the last file of the active overlay says that gives it, failing that the last
      one of the default overlay, failing that what the package says. */
  ghost predicate SpokenIn(
    e: Entities, overlays: Overlays, default: string, active: string, t: Entities, kind: string, id: string, k: Key)
    requires default in overlays && active in overlays && Exists(e, kind, id) && Exists(t, kind, id)
  {
    var first, base := overlays[active], overlays[default];
    && (forall i: nat :: LastGiving(first, kind, id, k, i) ==> TakenFrom(t, kind, id, k, first, i))
    && (Silent(first, kind, id, k) ==>
          && (forall i: nat :: LastGiving(base, kind, id, k, i) ==> TakenFrom(t, kind, id, k, base, i))
          && (Silent(base, kind, id, k) ==> SameField(e, t, kind, id, k)))
  }

  lemma GivenOrSilent(patches: seq<Patch>, kind: string, id: string, k: Key)
    ensures forall i: nat :: LastGiving(patches, kind, id, k, i) ==> !Silent(patches, kind, id, k)
  {}

  lemma StaysTaken(base: Entities, t: Entities, kind: string, id: string, k: Key, patches: seq<Patch>, i: nat)
    requires LastGiving(patches, kind, id, k, i) && Exists(base, kind, id) && Exists(t, kind, id)
    requires TakenFrom(base, kind, id, k, patches, i) && SameField(base, t, kind, id, k)
    ensures TakenFrom(t, kind, id, k, patches, i)
  {}

  lemma LoadedIsOverlaid(e: Entities, overlays: Overlays, default: string, active: string)
    requires Loaded(e, overlays, default, active).Some?
    ensures default in overlays && active in overlays && Overlaid(e, overlays[default]).Some?
    ensures var base := Overlaid(e, overlays[default]);
      Loaded(e, overlays, default, active)
        == if active == default then base else Overlaid(base.value, overlays[active])
  {
    hide Overlaid;
  }

  /** Where the later overlay says nothing, the earlier one's word stands. */
  lemma SilentKeeps(e: Entities, base: Entities, t: Entities, patches: seq<Patch>, kind: string, id: string, k: Key)
    requires Exists(e, kind, id) && Exists(base, kind, id) && Exists(t, kind, id) && SameField(base, t, kind, id, k)
    requires forall i: nat :: LastGiving(patches, kind, id, k, i) ==> TakenFrom(base, kind, id, k, patches, i)
    requires Silent(patches, kind, id, k) ==> SameField(e, base, kind, id, k)
    ensures forall i: nat :: LastGiving(patches, kind, id, k, i) ==> TakenFrom(t, kind, id, k, patches, i)
    ensures Silent(patches, kind, id, k) ==> SameField(e, t, kind, id, k)
  {
    hide Exists;
    forall i: nat | LastGiving(patches, kind, id, k, i) ensures TakenFrom(t, kind, id, k, patches, i) {
      StaysTaken(base, t, kind, id, k, patches, i);
    }
  }

  lemma LoadedField(
    e: Entities, overlays: Overlays, default: string, active: string, kind: string, id: string, k: Key)
    requires Loaded(e, overlays, default, active).Some? && Exists(e, kind, id)
    ensures default in overlays && active in overlays
    ensures var t := Loaded(e, overlays, default, active).value;
      Exists(t, kind, id) && SpokenIn(e, overlays, default, active, t, kind, id, k)
  {
    hide Overlaid, LastGiving, Silent, TakenFrom, Loaded, SameField, Exists;
    LoadedIsOverlaid(e, overlays, default, active);
    var base := Overlaid(e, overlays[default]).value;
    OverlaidField(e, overlays[default], kind, id, k);
    if active == default {
      GivenOrSilent(overlays[active], kind, id, k);
    } else {
      var t := Overlaid(base, overlays[active]).value;
      OverlaidField(base, overlays[active], kind, id, k);
      if Silent(overlays[active], kind, id, k) { SilentKeeps(e, base, t, overlays[default], kind, id, k); }
    }
  }

  /** The loaded package has the records of the package, each with the fields spoken for. */
  ghost predicate Spoken(e: Entities, overlays: Overlays, default: string, active: string, t: Entities)
    requires default in overlays && active in overlays
  {
    && (forall kind, id :: Exists(e, kind, id) <==> Exists(t, kind, id))
    && forall kind, id, k :: Exists(e, kind, id) ==> SpokenIn(e, overlays, default, active, t, kind, id, k)
  }

  lemma LoadedRecords(e: Entities, overlays: Overlays, default: string, active: string)
    requires Loaded(e, overlays, default, active).Some?
    ensures forall kind, id :: Exists(e, kind, id) <==> Exists(Loaded(e, overlays, default, active).value, kind, id)
  {
    hide Overlaid, Loaded;
    LoadedIsOverlaid(e, overlays, default, active);
    var base := Overlaid(e, overlays[default]).value;
    OverlaidKeepsMechanics(e, overlays[default]);
    if active != default { OverlaidKeepsMechanics(base, overlays[active]); }
  }

  lemma LoadedIsSpoken(e: Entities, overlays: Overlays, default: string, active: string)
    requires Loaded(e, overlays, default, active).Some?
    ensures default in overlays && active in overlays
    ensures Spoken(e, overlays, default, active, Loaded(e, overlays, default, active).value)
  {
    hide Overlaid, SpokenIn, Exists, Loaded;
    LoadedIsOverlaid(e, overlays, default, active);
    var t := Loaded(e, overlays, default, active).value;
    LoadedRecords(e, overlays, default, active);
    forall kind, id, k | Exists(e, kind, id) ensures SpokenIn(e, overlays, default, active, t, kind, id, k) {
      LoadedField(e, overlays, default, active, kind, id, k);
    }
  }

  /** The file is sound, its target exists, and it replaces only what may be replaced. */
  predicate Applicable(e: Entities, p: Patch) {
    p.sound && p.kind in e && p.id in e[p.kind] && forall k :: k in p.fields ==> k in Localized(p.kind)
  }

  /** An overlay applies exactly if each of its files does, to the records as they are. */
  lemma {:induction false} OverlayAppliesIff(e: Entities, patches: seq<Patch>)
    ensures Overlaid(e, patches).Some? <==> forall i :: 0 <= i < |patches| ==> Applicable(e, patches[i])
  {
    hide Merged, SameMechanics, Localized;
    if patches != [] {
      var n := |patches| - 1;
      OverlayAppliesIff(e, patches[..n]);
      if Overlaid(e, patches[..n]).Some? {
        var t := Overlaid(e, patches[..n]).value;
        OverlaidKeepsMechanics(e, patches[..n]);
        SameRecords(e, t, patches[n].kind, patches[n].id);
        MergedIff(t, patches[n]);
      }
    }
  }

  /** The package may be loaded: every declared locale has an overlay, and each of its files applies. */
  predicate Loadable(e: Entities, overlays: Overlays, supported: seq<string>) {
    forall l :: l in supported ==>
      l in overlays && forall i :: 0 <= i < |overlays[l]| ==> Applicable(e, overlays[l][i])
  }

  lemma AllApplyIff(e: Entities, overlays: Overlays, supported: seq<string>)
    ensures AllApply(e, overlays, supported) <==> Loadable(e, overlays, supported)
  {
    hide Overlaid, Applicable;
    forall l | l in supported && l in overlays
      ensures Overlaid(e, overlays[l]).Some? <==> forall i :: 0 <= i < |overlays[l]| ==> Applicable(e, overlays[l][i])
    {
      OverlayAppliesIff(e, overlays[l]);
    }
  }

  /** The records that the loader holds and overlays in place. */
  class Package {
    var entities: Entities

    constructor (e: Entities)
      ensures entities == e
    {
      entities := e;
    }

    /** Applies one overlay; on an error the records may be partly overlaid. */
    method ApplyLocale(overlays: Overlays, locale: string) returns (ok: bool)
      modifies this
      ensures ok <==> Applied(old(entities), overlays, locale).Some?
      ensures ok ==> entities == Applied(old(entities), overlays, locale).value
    {
      hide Merged;
      if locale !in overlays { return false; }
      var patches := overlays[locale];
      for i := 0 to |patches|
        invariant Overlaid(old(entities), patches[..i]) == Some(entities)
      {
        assert patches[..i + 1][..i] == patches[..i];
        var p := patches[i];
        ghost var merged := Merged(entities, p);
        MergedIff(entities, p);
        if !p.sound || !Exists(entities, p.kind, p.id) || !(p.fields.Keys <= Localized(p.kind)) {
          StopsAt(old(entities), patches, i + 1);
          return false;
        }
        entities := entities[p.kind := entities[p.kind][p.id := entities[p.kind][p.id] + p.fields]];
      }
      assert patches[..|patches|] == patches;
      return true;
    }

    /** Checks every declared overlay on a copy, then applies the default one and the active one. */
    method Localize(overlays: Overlays, supported: seq<string>, default: string, active: string) returns (ok: bool)
      requires default in supported && active in supported
      modifies this
      ensures ok <==> Loadable(old(entities), overlays, supported)
      ensures ok ==> Loaded(old(entities), overlays, default, active) == Some(entities)
      ensures ok ==> default in overlays && active in overlays
      ensures ok ==> Spoken(old(entities), overlays, default, active, entities)
    {
      hide Applied, Loadable, Spoken;
      AllApplyIff(entities, overlays, supported);
      for i := 0 to |supported|
        invariant entities == old(entities)
        invariant forall k :: 0 <= k < i ==> Applied(entities, overlays, supported[k]).Some?
      {
        var copy := new Package(entities);
        ok := copy.ApplyLocale(overlays, supported[i]);
        if !ok {
          assert supported[i] in supported;
          return false;
        }
      }
      PrecheckSuffices(entities, overlays, supported, default, active);
      ok := ApplyLocale(overlays, default);
      if active != default {
        ok := ApplyLocale(overlays, active);
      }
      assert Loaded(old(entities), overlays, default, active) == Some(entities);
      LoadedIsSpoken(old(entities), overlays, default, active);
    }
  }

  // ---- what an overlay leaves alone ----

  lemma SameGet(f: Fields, g: Fields, k: Key, default: Json)
    requires SameFields(f, g, {KName, KSummary, KTutorial}) && k !in {KName, KSummary, KTutorial}
    ensures Get(g, k, default) == Get(f, k, default)
  {}

  lemma SameReading(f: Fields, g: Fields, show: Show)
    requires SameFields(f, g, {KName, KSummary, KTutorial})
    ensures GraphFromFields(g, show) == GraphFromFields(f, show)
  {
    hide ReadId, ReadChapters, ReadNodes, ReadIds, ReadGoals, ReadSeed, ReadVisibility, ReadInt, Get, SameFields;
    SameGet(f, g, KId, Null);
    SameGet(f, g, KSchemaVersion, Int(1));
    SameGet(f, g, KVisibility, Str("public"));
    SameGet(f, g, KChapters, Arr([]));
    SameGet(f, g, KNodes, Arr([]));
    SameGet(f, g, KStartNodeIds, Arr([]));
    SameGet(f, g, KObjectives, Arr([]));
    SameGet(f, g, KMilestones, Arr([]));
    SameGet(f, g, KWorldSeed, Null);
  }

  lemma SameKnownFields(f: Fields, g: Fields)
    requires SameFields(f, g, {KName, KSummary, KTutorial})
    ensures f.Keys <= GRAPH_FIELDS <==> g.Keys <= GRAPH_FIELDS
  {
    var free := {KName, KSummary, KTutorial};
    assert free <= GRAPH_FIELDS;
    if f.Keys <= GRAPH_FIELDS {
      forall k | k in g ensures k in GRAPH_FIELDS { if k !in free { assert k in f; } }
    }
    if g.Keys <= GRAPH_FIELDS {
      forall k | k in f ensures k in GRAPH_FIELDS { if k !in free { assert k in g; } }
    }
  }

  lemma TextKeepsGraph(f: Fields, g: Fields, show: Show)
    requires SameFields(f, g, {KName, KSummary, KTutorial})
    ensures Validated(Obj(g), show) == Validated(Obj(f), show)
  {
    hide GraphFromFields, WellFormed, SameFields;
    SameKnownFields(f, g);
    SameReading(f, g, show);
  }

  /** Loading a package under any locale leaves its mechanics as they were: the same records, differing only in the
      fields that may be localised, and an adventure that validates to the same graph. */
  lemma LoadingKeepsMechanics(e: Entities, overlays: Overlays, default: string, active: string, id: string, show: Show)
    ensures Loaded(e, overlays, default, active).Some? ==>
      var t := Loaded(e, overlays, default, active).value;
      && SameMechanics(e, t)
      && (Exists(e, ADVENTURE, id) ==>
            Validated(Obj(t[ADVENTURE][id]), show) == Validated(Obj(e[ADVENTURE][id]), show))
  {
    hide Overlaid, Validated, SameFields;
    if Loaded(e, overlays, default, active).Some? {
      var t := Applied(e, overlays, default).value;
      var u := Loaded(e, overlays, default, active).value;
      OverlaidKeepsMechanics(e, overlays[default]);
      if active != default {
        OverlaidKeepsMechanics(t, overlays[active]);
        SameMechanicsSteps(e, t, u);
      }
      if Exists(e, ADVENTURE, id) {
        assert Localized(ADVENTURE) == {KName, KSummary, KTutorial};
        TextKeepsGraph(e[ADVENTURE][id], u[ADVENTURE][id], show);
      }
    }
  }
}
