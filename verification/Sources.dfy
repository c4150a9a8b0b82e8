/** Adventure sources: resolving a package among several, and the bindings that saved games keep. */
module Sources {
  import opened Values

  const PLUGIN := "plugin"

  datatype Bundle = Bundle(adventure: string, version: string, format: string, digest: string)

  /** A source and the packages its directory holds. */
  datatype Source = Source(kind: string, id: string, bundles: seq<Bundle>)

  predicate IsKind(kind: string) { kind == "builtin" || kind == "user" || kind == PLUGIN }

  predicate Same(a: Source, b: Source) { a.kind == b.kind && a.id == b.id }

  datatype Found = Missing | Conflict(among: seq<Source>) | Found(bundle: Bundle, source: Source)

  /** `[a-z0-9][a-z0-9_.:-]*` */
  predicate IsPackageId(s: string) {
    s != "" && IsIdStart(s[0]) && forall i :: 0 <= i < |s| ==> IsIdChar(s[i]) || s[i] == ':'
  }

  /** The one package of the source with this identifier, which is stripped and checked first; none if there are
      several. */
  function InSource(s: Source, wanted: string): (r: Option<Bundle>)
    ensures r.Some? ==> r.value in s.bundles && r.value.adventure == Strip(wanted) && IsPackageId(r.value.adventure)
  {
    var id := Strip(wanted);
    var matches := Filter((b: Bundle) => b.adventure == id, s.bundles);
    Filtered((b: Bundle) => b.adventure == id, s.bundles);
    if IsPackageId(id) && |matches| == 1 then Some(matches[0]) else None
  }

  lemma StrippedLookup(s: Source, wanted: string)
    ensures InSource(s, Strip(wanted)) == InSource(s, wanted)
  {}

  function SourceFor(sources: seq<Source>, kind: string, id: string): (r: Option<Source>)
    ensures r.Some? ==> r.value in sources && r.value.kind == kind && r.value.id == id
    ensures r.None? ==> forall s :: s in sources ==> !(s.kind == kind && s.id == id)
  {
    if sources == [] then None
    else if sources[0].kind == kind && sources[0].id == id then Some(sources[0])
    else SourceFor(sources[1..], kind, id)
  }

  /** Within a named source, or, with no source named, wherever it is if that is one place only. */
  function Resolved(sources: seq<Source>, wanted: string, kind: string, id: string): Found {
    if kind != "" then
      var source := SourceFor(sources, kind, id);
      if source.None? || InSource(source.value, wanted).None? then Missing
      else Found(InSource(source.value, wanted).value, source.value)
    else
      var holders := Filter((s: Source) => InSource(s, wanted).Some?, sources);
      Filtered((s: Source) => InSource(s, wanted).Some?, sources);
      if holders == [] then Missing
      else if |holders| > 1 then Conflict(holders)
      else
        assert holders[0] in holders;
        Found(InSource(holders[0], wanted).value, holders[0])
  }

  predicate OnlyAt(s: Source, k: nat)
    requires k < |s.bundles|
  {
    forall j :: 0 <= j < |s.bundles| && j != k ==> s.bundles[j].adventure != s.bundles[k].adventure
  }

  /** The source has exactly one package with this identifier. */
  predicate HasOne(s: Source, wanted: string) {
    && IsPackageId(Strip(wanted))
    && exists k :: 0 <= k < |s.bundles| && s.bundles[k].adventure == Strip(wanted) && OnlyAt(s, k)
  }

  lemma InSourceIff(s: Source, wanted: string)
    ensures InSource(s, wanted).Some? <==> HasOne(s, wanted)
  {
    hide Strip, IsPackageId;
    var keep := (b: Bundle) => b.adventure == Strip(wanted);
    FilterCounts(keep, s.bundles);
    if |Filter(keep, s.bundles)| == 1 {
      var k :| 0 <= k < |s.bundles| && keep(s.bundles[k]);
      forall j | 0 <= j < |s.bundles| && j != k ensures s.bundles[j].adventure != s.bundles[k].adventure {}
      assert OnlyAt(s, k);
    }
  }

  /** A lookup without a source: found in the one place that has it, missing if none has, and a conflict that lists all
      of them if several have. */
  lemma UnqualifiedLookup(sources: seq<Source>, wanted: string)
    ensures var r := Resolved(sources, wanted, "", "");
      && (r.Missing? <==> forall i :: 0 <= i < |sources| ==> !HasOne(sources[i], wanted))
      && (r.Conflict? <==>
            exists i, j :: 0 <= i < j < |sources| && HasOne(sources[i], wanted) && HasOne(sources[j], wanted))
      && (r.Conflict? ==> forall s :: s in r.among <==> s in sources && HasOne(s, wanted))
      && (r.Found? ==> && r.source in sources && HasOne(r.source, wanted)
                       && r.bundle in r.source.bundles && r.bundle.adventure == Strip(wanted))
  {
    hide Strip, InSource, HasOne, Filter;
    var keep := (s: Source) => InSource(s, wanted).Some?;
    forall s ensures keep(s) <==> HasOne(s, wanted) { InSourceIff(s, wanted); }
    FilterCounts(keep, sources);
    Filtered(keep, sources);
    var holders := Filter(keep, sources);
    if holders != [] { assert holders[0] in holders; }
  }

  // ---- the registry ----

  function WithSource(sources: seq<Source>, s: Source): Option<seq<Source>> {
    if !IsKind(s.kind) || SourceFor(sources, s.kind, s.id).Some? then None else Some(sources + [s])
  }

  function WithPlugins(sources: seq<Source>, plugins: seq<Source>): seq<Source> {
    Filter((s: Source) => s.kind != PLUGIN, sources) + plugins
  }

  lemma {:induction false} LookupConcat(a: seq<Source>, b: seq<Source>, kind: string, id: string)
    ensures SourceFor(a + b, kind, id)
      == if SourceFor(a, kind, id).Some? then SourceFor(a, kind, id) else SourceFor(b, kind, id)
  {
    if a == [] {
      assert a + b == b;
    } else {
      assert (a + b)[0] == a[0] && (a + b)[1..] == a[1..] + b;
      LookupConcat(a[1..], b, kind, id);
    }
  }

  lemma {:induction false} LookupKept(sources: seq<Source>, kind: string, id: string)
    ensures SourceFor(Filter((s: Source) => s.kind != PLUGIN, sources), kind, id)
      == if kind != PLUGIN then SourceFor(sources, kind, id) else None
  {
    if sources != [] {
      var keep := (s: Source) => s.kind != PLUGIN;
      LookupKept(sources[1..], kind, id);
      if keep(sources[0]) {
        assert ([sources[0]] + Filter(keep, sources[1..]))[1..] == Filter(keep, sources[1..]);
      }
    }
  }

  /** After synchronising, a plugin source is found exactly as the new list has it, so none of the old ones is left; any
      other source is found as before, and only where there was none does the new list answer. */
  lemma SyncedLookup(sources: seq<Source>, plugins: seq<Source>, kind: string, id: string)
    ensures SourceFor(WithPlugins(sources, plugins), kind, id)
      == if kind != PLUGIN && SourceFor(sources, kind, id).Some? then SourceFor(sources, kind, id)
         else SourceFor(plugins, kind, id)
  {
    LookupConcat(Filter((s: Source) => s.kind != PLUGIN, sources), plugins, kind, id);
    LookupKept(sources, kind, id);
  }

  class Registry {
    var sources: seq<Source>

    constructor ()
      ensures sources == []
    {
      sources := [];
    }

    method Register(s: Source) returns (ok: bool)
      modifies this
      ensures var spec := WithSource(old(sources), s);
        ok == spec.Some? && sources == if ok then spec.value else old(sources)
    {
      if !IsKind(s.kind) { return false; }
      for i := 0 to |sources|
        invariant sources == old(sources)
        invariant forall k :: 0 <= k < i ==> !Same(sources[k], s)
      {
        if Same(sources[i], s) {
          assert sources[i] in sources;
          return false;
        }
      }
      sources := sources + [s];
      return true;
    }

    /** Replaces every plugin source. */
    method SyncPlugins(plugins: seq<Source>)
      modifies this
      ensures sources == WithPlugins(old(sources), plugins)
      ensures forall kind, id :: SourceFor(sources, kind, id)
                == if kind != PLUGIN && SourceFor(old(sources), kind, id).Some? then SourceFor(old(sources), kind, id)
                   else SourceFor(plugins, kind, id)
    {
      forall kind, id
        ensures SourceFor(WithPlugins(sources, plugins), kind, id)
          == if kind != PLUGIN && SourceFor(sources, kind, id).Some? then SourceFor(sources, kind, id)
             else SourceFor(plugins, kind, id)
      {
        SyncedLookup(sources, plugins, kind, id);
      }
      sources := Filter((s: Source) => s.kind != PLUGIN, sources) + plugins;
    }

    /** Looks through all sources, or in the named one. */
    method Resolve(wanted: string, kind: string, id: string) returns (r: Found)
      ensures r == Resolved(sources, wanted, kind, id)
    {
      hide InSource, Strip, IsPackageId;
      if kind != "" {
        var source := SourceFor(sources, kind, id);
        if source.None? { return Missing; }
        var bundle := InSource(source.value, wanted);
        return if bundle.None? then Missing else Found(bundle.value, source.value);
      }
      var matches: seq<(Bundle, Source)>, all := [], sources;
      ghost var keep := (s: Source) => InSource(s, wanted).Some?;
      for i := 0 to |all|
        invariant |matches| == |Filter(keep, all[..i])|
        invariant forall k :: 0 <= k < |matches| ==>
          matches[k].1 == Filter(keep, all[..i])[k] && InSource(matches[k].1, wanted) == Some(matches[k].0)
      {
        var bundle := InSource(all[i], wanted);
        assert all[..i + 1] == all[..i] + [all[i]];
        FilterConcat(keep, all[..i], [all[i]]);
        if bundle.Some? { matches := matches + [(bundle.value, all[i])]; }
      }
      assert all[..|all|] == all;
      if matches == [] { return Missing; }
      if |matches| > 1 {
        var among := Map((m: (Bundle, Source)) => m.1, matches);
        assert among == Filter(keep, all);
        return Conflict(among);
      }
      return Found(matches[0].0, matches[0].1);
    }
  }

  /** Every source has a known kind and an identity of its own. */
  ghost predicate Inv(sources: seq<Source>) {
    && (forall s :: s in sources ==> IsKind(s.kind))
    && forall i, j :: 0 <= i < j < |sources| ==> !Same(sources[i], sources[j])
  }

  lemma RegisteringKeepsInv(sources: seq<Source>, s: Source)
    requires Inv(sources)
    ensures WithSource(sources, s).Some? ==> Inv(WithSource(sources, s).value)
  {
    if WithSource(sources, s).Some? {
      forall i | 0 <= i < |sources| ensures !Same(sources[i], s) { assert sources[i] in sources; }
    }
  }

  lemma InvConsIff(s: Source, rest: seq<Source>)
    ensures Inv([s] + rest) <==> IsKind(s.kind) && Inv(rest) && forall x :: x in rest ==> !Same(s, x)
  {
    var all := [s] + rest;
    if Inv(all) {
      assert s in all;
      forall x | x in rest ensures IsKind(x.kind) && !Same(s, x) {
        var k :| 0 <= k < |rest| && rest[k] == x;
        assert x in all && !Same(all[0], all[k + 1]);
      }
      forall i, j | 0 <= i < j < |rest| ensures !Same(rest[i], rest[j]) { assert !Same(all[i + 1], all[j + 1]); }
    }
  }

  lemma {:induction false} FilterKeepsInv(keep: Source -> bool, sources: seq<Source>)
    requires Inv(sources)
    ensures Inv(Filter(keep, sources))
  {
    hide Inv, Same;
    if sources != [] {
      var rest := sources[1..];
      assert sources == [sources[0]] + rest;
      InvConsIff(sources[0], rest);
      FilterKeepsInv(keep, rest);
      Filtered(keep, rest);
      InvConsIff(sources[0], Filter(keep, rest));
    }
  }

  lemma InvConcatIff(kept: seq<Source>, plugins: seq<Source>)
    requires Inv(kept)
    ensures Inv(kept + plugins) <==> Inv(plugins) && forall s, p :: s in kept && p in plugins ==> !Same(s, p)
  {
    var all := kept + plugins;
    if Inv(all) {
      forall i, j | 0 <= i < j < |plugins| ensures !Same(plugins[i], plugins[j]) {
        assert !Same(all[|kept| + i], all[|kept| + j]);
      }
      forall s, p | s in kept && p in plugins ensures !Same(s, p) {
        var i :| 0 <= i < |kept| && kept[i] == s;
        var j :| 0 <= j < |plugins| && plugins[j] == p;
        assert !Same(all[i], all[|kept| + j]);
      }
      forall p | p in plugins ensures IsKind(p.kind) { assert p in all; }
    }
    if Inv(plugins) && forall s, p :: s in kept && p in plugins ==> !Same(s, p) {
      forall i, j | 0 <= i < j < |all| ensures !Same(all[i], all[j]) {
        if i < |kept| <= j { assert kept[i] in kept && plugins[j - |kept|] in plugins; }
      }
    }
  }

  /** Synchronising checks nothing; it keeps the identities apart if and only if the new plugin sources, among
      themselves and against the sources that stay, do. */
  lemma SyncKeepsInvIff(sources: seq<Source>, plugins: seq<Source>)
    requires Inv(sources)
    ensures Inv(WithPlugins(sources, plugins)) <==>
            Inv(plugins) && forall s, p :: s in sources && s.kind != PLUGIN && p in plugins ==> !Same(s, p)
  {
    hide Inv, Same;
    var keep := (s: Source) => s.kind != PLUGIN;
    FilterKeepsInv(keep, sources);
    Filtered(keep, sources);
    InvConcatIff(Filter(keep, sources), plugins);
  }

  /** The one place that synchronises passes sources of kind "plugin" whose identifiers are keys of the plugin table:
      for such a list the identities stay distinct. */
  lemma PluginTableKeepsInv(sources: seq<Source>, plugins: seq<Source>)
    requires Inv(sources) && (forall p :: p in plugins ==> p.kind == PLUGIN)
    requires Distinct(Map((p: Source) => p.id, plugins))
    ensures Inv(WithPlugins(sources, plugins))
  {
    hide WithPlugins;
    SyncKeepsInvIff(sources, plugins);
    var ids := Map((p: Source) => p.id, plugins);
    forall i, j | 0 <= i < j < |plugins| ensures !Same(plugins[i], plugins[j]) { assert ids[i] != ids[j]; }
  }

  /** Any other caller can break it: a list with two sources of one identity is taken as it is, and the second source
      can no longer be found. */
  lemma SyncTakesTwins(a: Bundle, b: Bundle)
    requires a != b
    ensures var twins := [Source(PLUGIN, "m", [a]), Source(PLUGIN, "m", [b])];
      && !Inv(WithPlugins([], twins))
      && SourceFor(WithPlugins([], twins), PLUGIN, "m") == Some(Source(PLUGIN, "m", [a]))
  {
    var twins := [Source(PLUGIN, "m", [a]), Source(PLUGIN, "m", [b])];
    assert WithPlugins([], twins) == twins;
    assert Same(twins[0], twins[1]);
  }

  lemma SourceForMember(sources: seq<Source>, s: Source)
    requires Inv(sources) && s in sources
    ensures SourceFor(sources, s.kind, s.id) == Some(s)
  {
    var r := SourceFor(sources, s.kind, s.id);
    assert r.Some?;
    var i :| 0 <= i < |sources| && sources[i] == s;
    var j :| 0 <= j < |sources| && sources[j] == r.value;
  }

  // ---- bindings ----

  datatype Binding = Binding(
    adventure: string, version: string, format: string, digest: string, world: string, source: Option<(string, string)>)

  /** What a saved game keeps of a resolution; an empty kind is no source. */
  function BindingOf(b: Bundle, s: Source, world: string): Binding {
    Binding(b.adventure, b.version, b.format, b.digest, world,
            if Strip(s.kind) != "" then Some((s.kind, s.id)) else None)
  }

  function ResolvedBinding(sources: seq<Source>, b: Binding): Found {
    if b.adventure == "" then Missing
    else if b.source.Some? then Resolved(sources, b.adventure, b.source.value.0, b.source.value.1)
    else Resolved(sources, b.adventure, "", "")
  }

  /** The saved binding still describes what was resolved. */
  predicate Matches(saved: Binding, expected: Binding) {
    && saved.(source := None) == expected.(source := None)
    && (saved.source.None? || saved.source.value.0 == "" || expected.source == saved.source)
  }

  lemma FoundHolds(sources: seq<Source>, wanted: string, kind: string, id: string)
    ensures var r := Resolved(sources, wanted, kind, id);
      r.Found? ==>
        && r.source in sources && InSource(r.source, wanted) == Some(r.bundle)
        && r.bundle.adventure == Strip(wanted) && r.bundle.adventure != ""
  {
    Filtered((s: Source) => InSource(s, wanted).Some?, sources);
    var holders := Filter((s: Source) => InSource(s, wanted).Some?, sources);
    if holders != [] { assert holders[0] in holders; }
  }

  lemma KindsAreText(kind: string)
    requires IsKind(kind)
    ensures kind != "" && Strip(kind) == kind
  {
    assert !IsSpace('b') && !IsSpace('n') && !IsSpace('u') && !IsSpace('r') && !IsSpace('p');
  }

  lemma ResolvedInSource(sources: seq<Source>, wanted: string, s: Source)
    requires s.kind != "" && SourceFor(sources, s.kind, s.id) == Some(s) && InSource(s, wanted).Some?
    ensures Resolved(sources, wanted, s.kind, s.id) == Found(InSource(s, wanted).value, s)
  {}

  /** However a package was resolved, its binding finds the same package in the same source again, and matches it, in
      every collection of sources with distinct identities that still holds that source. */
  lemma BindingsAreStable(
    sources: seq<Source>, wanted: string, kind: string, id: string, later: seq<Source>, world: string)
    requires Inv(sources) && Inv(later)
    ensures var r := Resolved(sources, wanted, kind, id);
      r.Found? && r.source in later ==>
        var binding := BindingOf(r.bundle, r.source, world);
        && ResolvedBinding(later, binding) == r
        && Matches(binding, BindingOf(r.bundle, r.source, world))
  {
    hide Resolved, InSource, SourceFor, Strip;
    FoundHolds(sources, wanted, kind, id);
    var r := Resolved(sources, wanted, kind, id);
    if r.Found? && r.source in later {
      StrippedLookup(r.source, wanted);
      KindsAreText(r.source.kind);
      SourceForMember(later, r.source);
      ResolvedInSource(later, r.bundle.adventure, r.source);
    }
  }

  /** A binding that names its source matches no resolution from another source, even of an identical package. */
  lemma BindingsTellSourcesApart(b: Bundle, s: Source, c: Bundle, t: Source, world: string)
    requires IsKind(s.kind) && IsKind(t.kind)
    ensures Matches(BindingOf(b, s, world), BindingOf(c, t, world)) <==> b == c && Same(s, t)
  {
    hide Strip;
    KindsAreText(s.kind);
    KindsAreText(t.kind);
  }

  /** When sources are added, a lookup that names none keeps its answer or turns into a conflict that lists the old
      source; it never silently becomes another package, and a conflict never goes away. */
  lemma LookupsOnlyTurnIntoConflicts(sources: seq<Source>, extra: seq<Source>, wanted: string)
    ensures var before, after := Resolved(sources, wanted, "", ""), Resolved(sources + extra, wanted, "", "");
      && (before.Found? ==> after == before || (after.Conflict? && before.source in after.among))
      && (before.Conflict? ==> after.Conflict? && before.among <= after.among)
      && (before.Found? ==> (after == before <==> forall s :: s in extra ==> InSource(s, wanted).None?))
  {
    hide InSource;
    var keep := (s: Source) => InSource(s, wanted).Some?;
    FilterConcat(keep, sources, extra);
    Filtered(keep, extra);
    var more := Filter(keep, extra);
    if more != [] { assert more[0] in more; }
  }
}
