/** Leaving a field out and writing its default: the validator does not tell the two apart, at any depth of a record. */
module GraphDefaults {
  import opened Values
  import opened Gates
  import opened GraphModel
  import opened GraphValidation
  import opened GraphRecords

  // ---- spelling out defaults ----

  /** The second record has the fields of the first one and some of the defaults besides; what is `inner` may have been
      spelt out in turn. */
  predicate SpeltOut(f: Fields, g: Fields, defaults: Fields, inner: set<Key>) {
    && (forall k :: k in f ==> k in g && (k in inner || g[k] == f[k]))
    && (forall k :: k in g && k !in f ==> k in defaults && g[k] == defaults[k])
  }

  const GATE_DEFAULTS: Fields := map[KValue := Null]
  const TRANSITION_DEFAULTS: Fields := map[KConditions := Arr([])]
  const REWARD_DEFAULTS: Fields := map[KRecipientUid := Str("")]
  const EVENT_DEFAULTS: Fields := map[KId := Str("")]
  const CHAPTER_DEFAULTS: Fields := map[KName := Str(""), KVisibility := Str("public")]
  const GOAL_DEFAULTS: Fields := map[KName := Str(""), KVisibility := Str("public"), KNodeIds := Arr([])]
  const SEED_DEFAULTS: Fields :=
    map[KEntities := Arr([]), KRelations := Arr([]), KFacts := Arr([]), KProcesses := Arr([])]

  /** The mode of a node is a field of the second schema only. */
  function NodeDefaults(schema: int): Fields {
    var fields: Fields := map[
      KChapterId := Null, KVisibility := Str("public"), KOptional := Bool(false), KName := Str(""),
      KDescription := Str(""), KTransitions := Arr([]), KOnComplete := Arr([]), KSceneRef := Null,
      KEncounterRef := Null, KNpcRefs := Arr([])];
    if schema == 2 then fields[KChoiceMode := Str("parallel")] else fields
  }

  const GRAPH_DEFAULTS: Fields :=
    map[KSchemaVersion := Int(1), KVisibility := Str("public"), KChapters := Arr([]), KNodes := Arr([]),
        KStartNodeIds := Arr([]), KObjectives := Arr([]), KMilestones := Arr([]), KWorldSeed := Null]

  predicate FullerGate(a: Json, b: Json) {
    a == b || (a.Obj? && b.Obj? && SpeltOut(a.fields, b.fields, GATE_DEFAULTS, {}))
  }

  predicate FullerGates(v: Json, w: Json) {
    || v == w
    || (&& v.Arr? && w.Arr? && |v.items| == |w.items|
        && forall i :: 0 <= i < |v.items| ==> FullerGate(v.items[i], w.items[i]))
  }

  predicate FullerTransition(a: Json, b: Json) {
    || a == b
    || (&& a.Obj? && b.Obj? && SpeltOut(a.fields, b.fields, TRANSITION_DEFAULTS, {KConditions})
        && (KConditions in a.fields ==> FullerGates(a.fields[KConditions], b.fields[KConditions])))
  }

  predicate FullerTransitions(v: Json, w: Json) {
    || v == w
    || (&& v.Arr? && w.Arr? && |v.items| == |w.items|
        && forall i :: 0 <= i < |v.items| ==> FullerTransition(v.items[i], w.items[i]))
  }

  predicate FullerOutcome(a: Json, b: Json) {
    || a == b
    || (&& a.Obj? && b.Obj? && KType in a.fields
        && ((a.fields[KType] == Str("item_reward") && SpeltOut(a.fields, b.fields, REWARD_DEFAULTS, {}))
            || (a.fields[KType] == Str("progress_event") && SpeltOut(a.fields, b.fields, EVENT_DEFAULTS, {}))))
  }

  predicate FullerOutcomes(v: Json, w: Json) {
    || v == w
    || (&& v.Arr? && w.Arr? && |v.items| == |w.items|
        && forall i :: 0 <= i < |v.items| ==> FullerOutcome(v.items[i], w.items[i]))
  }

  predicate FullerNode(a: Json, b: Json, schema: int) {
    || a == b
    || (&& a.Obj? && b.Obj? && SpeltOut(a.fields, b.fields, NodeDefaults(schema), {KTransitions, KOnComplete})
        && (KTransitions in a.fields ==> FullerTransitions(a.fields[KTransitions], b.fields[KTransitions]))
        && (KOnComplete in a.fields ==> FullerOutcomes(a.fields[KOnComplete], b.fields[KOnComplete])))
  }

  predicate FullerNodes(v: Json, w: Json, schema: int) {
    || v == w
    || (&& v.Arr? && w.Arr? && |v.items| == |w.items|
        && forall i :: 0 <= i < |v.items| ==> FullerNode(v.items[i], w.items[i], schema))
  }

  predicate FullerRecord(a: Json, b: Json, defaults: Fields) {
    a == b || (a.Obj? && b.Obj? && SpeltOut(a.fields, b.fields, defaults, {}))
  }

  predicate FullerRecords(v: Json, w: Json, defaults: Fields) {
    || v == w
    || (&& v.Arr? && w.Arr? && |v.items| == |w.items|
        && forall i :: 0 <= i < |v.items| ==> FullerRecord(v.items[i], w.items[i], defaults))
  }

  const GRAPH_INNER: set<Key> := {KChapters, KNodes, KObjectives, KMilestones, KWorldSeed}

  /** The second record is the first one with any of its optional fields spelt out, here and inside. */
  predicate Fuller(a: Json, b: Json) {
    && a.Obj? && b.Obj?
    && var f, g := a.fields, b.fields;
       && SpeltOut(f, g, GRAPH_DEFAULTS, GRAPH_INNER)
       && (KChapters in f ==> FullerRecords(f[KChapters], g[KChapters], CHAPTER_DEFAULTS))
       && (KNodes in f ==>
             FullerNodes(f[KNodes], g[KNodes], if KSchemaVersion in f && f[KSchemaVersion] == Int(2) then 2 else 1))
       && (KObjectives in f ==> FullerRecords(f[KObjectives], g[KObjectives], GOAL_DEFAULTS))
       && (KMilestones in f ==> FullerRecords(f[KMilestones], g[KMilestones], GOAL_DEFAULTS))
       && (KWorldSeed in f ==> FullerRecord(f[KWorldSeed], g[KWorldSeed], SEED_DEFAULTS))
  }

  // ---- it makes no difference ----

  lemma GateSame(a: Json, b: Json, gate: Gate, show: Show)
    requires FullerGate(a, b)
    ensures GateIs(a, gate, show) <==> GateIs(b, gate, show)
  {
    hide Says;
  }

  lemma GatesSame(f: Fields, g: Fields, gates: seq<Gate>, show: Show)
    requires SpeltOut(f, g, TRANSITION_DEFAULTS, {KConditions})
    requires KConditions in f ==> FullerGates(f[KConditions], g[KConditions])
    ensures GatesAre(f, gates, show) <==> GatesAre(g, gates, show)
  {
    hide GateIs, FullerGate;
    if KConditions in f && f[KConditions].Arr? && g[KConditions].Arr? {
      var v, w := f[KConditions].items, g[KConditions].items;
      forall i | 0 <= i < |v| && i < |gates| && v != w
        ensures GateIs(v[i], gates[i], show) <==> GateIs(w[i], gates[i], show)
      {
        GateSame(v[i], w[i], gates[i], show);
      }
    }
  }

  lemma TransitionSame(a: Json, b: Json, exclusive: bool, t: Transition, show: Show)
    requires FullerTransition(a, b)
    ensures TransitionIs(a, exclusive, t, show) <==> TransitionIs(b, exclusive, t, show)
  {
    hide GatesAre, FullerGates, Names, Padded;
    if a != b { GatesSame(a.fields, b.fields, t.conditions, show); }
  }

  lemma TransitionsSame(f: Fields, g: Fields, exclusive: bool, ts: seq<Transition>, show: Show)
    requires KTransitions in f ==> KTransitions in g && FullerTransitions(f[KTransitions], g[KTransitions])
    requires KTransitions in g && KTransitions !in f ==> g[KTransitions] == Arr([])
    ensures TransitionsAre(f, exclusive, ts, show) <==> TransitionsAre(g, exclusive, ts, show)
  {
    hide TransitionIs, FullerTransition;
    if KTransitions in f && f[KTransitions].Arr? && g[KTransitions].Arr? {
      var v, w := f[KTransitions].items, g[KTransitions].items;
      forall i | 0 <= i < |v| && i < |ts| && v != w
        ensures TransitionIs(v[i], exclusive, ts[i], show) <==> TransitionIs(w[i], exclusive, ts[i], show)
      {
        TransitionSame(v[i], w[i], exclusive, ts[i], show);
      }
    }
  }

  lemma OutcomeSame(a: Json, b: Json, o: Outcome, show: Show)
    requires FullerOutcome(a, b)
    ensures OutcomeIs(a, o, show) <==> OutcomeIs(b, o, show)
  {
    KindsDiffer();
  }

  lemma OutcomesSame(f: Fields, g: Fields, os: seq<Outcome>, show: Show)
    requires KOnComplete in f ==> KOnComplete in g && FullerOutcomes(f[KOnComplete], g[KOnComplete])
    requires KOnComplete in g && KOnComplete !in f ==> g[KOnComplete] == Arr([])
    ensures OutcomesAre(f, os, show) <==> OutcomesAre(g, os, show)
  {
    hide OutcomeIs, FullerOutcome;
    if KOnComplete in f && f[KOnComplete].Arr? && g[KOnComplete].Arr? {
      var v, w := f[KOnComplete].items, g[KOnComplete].items;
      forall i | 0 <= i < |v| && i < |os| && v != w
        ensures OutcomeIs(v[i], os[i], show) <==> OutcomeIs(w[i], os[i], show)
      {
        OutcomeSame(v[i], w[i], os[i], show);
      }
    }
  }

  /** A field with this default, spelt out or not. */
  predicate Defaulted(f: Fields, g: Fields, k: Key, default: Json) {
    if k in f then k in g && g[k] == f[k] else k !in g || g[k] == default
  }

  lemma FieldSaysSame(f: Fields, g: Fields, k: Key, text: string, show: Show)
    requires Defaulted(f, g, k, Str(""))
    ensures FieldSays(f, k, text, show) <==> FieldSays(g, k, text, show)
  {}

  lemma VisibilitySame(f: Fields, g: Fields, v: Visibility)
    requires Defaulted(f, g, KVisibility, Str("public"))
    ensures VisibilityIs(f, v) <==> VisibilityIs(g, v)
  {
    assert |"gm"| == 2 && |"public"| == 6;
  }

  lemma RefSame(f: Fields, g: Fields, k: Key, ref: Option<string>, show: Show)
    requires Defaulted(f, g, k, Null)
    ensures RefIs(f, k, ref, show) <==> RefIs(g, k, ref, show)
  {}

  lemma ModeSame(f: Fields, g: Fields, exclusive: bool)
    requires Defaulted(f, g, KChoiceMode, Str("parallel"))
    ensures ModeIs(f, exclusive) <==> ModeIs(g, exclusive)
  {
    assert |"exclusive"| == 9 && |"parallel"| == 8;
  }

  lemma RefsSame(f: Fields, g: Fields, refs: seq<string>)
    requires Defaulted(f, g, KNpcRefs, Arr([]))
    ensures RefsAre(f, refs) <==> RefsAre(g, refs)
  {}

  lemma IdsSame(f: Fields, g: Fields, k: Key, ids: seq<Id>, show: Show)
    requires Defaulted(f, g, k, Arr([]))
    ensures IdsAre(f, k, ids, show) <==> IdsAre(g, k, ids, show)
  {
    hide Names;
  }

  lemma Spelt(f: Fields, g: Fields, defaults: Fields, inner: set<Key>, k: Key)
    requires SpeltOut(f, g, defaults, inner)
    ensures k in f ==> k in g && (k !in inner ==> g[k] == f[k])
    ensures k in g && k !in f ==> k in defaults && g[k] == defaults[k]
    ensures k in defaults && k !in inner ==> Defaulted(f, g, k, defaults[k])
  {}

  lemma UnchangedIsDefaulted(f: Fields, g: Fields, k: Key, default: Json)
    requires (k in f <==> k in g) && (k in f ==> g[k] == f[k])
    ensures Defaulted(f, g, k, default)
  {}

  lemma NodeDefaultsAre(schema: int)
    ensures var ds := NodeDefaults(schema);
      && ds.Keys == {KChapterId, KVisibility, KOptional, KName, KDescription, KTransitions, KOnComplete, KSceneRef,
                     KEncounterRef, KNpcRefs} + (if schema == 2 then {KChoiceMode} else {})
      && ds[KVisibility] == Str("public") && ds[KChapterId] == ds[KSceneRef] == ds[KEncounterRef] == Null
      && ds[KOptional] == Bool(false) && ds[KName] == ds[KDescription] == Str("")
      && ds[KTransitions] == ds[KOnComplete] == ds[KNpcRefs] == Arr([])
      && (schema == 2 ==> ds[KChoiceMode] == Str("parallel"))
  {}

  lemma NodeDefaulted(f: Fields, g: Fields, schema: int)
    requires SpeltOut(f, g, NodeDefaults(schema), {KTransitions, KOnComplete})
    ensures Defaulted(f, g, KVisibility, Str("public")) && Defaulted(f, g, KChapterId, Null)
    ensures Defaulted(f, g, KOptional, Bool(false)) && Defaulted(f, g, KName, Str(""))
    ensures Defaulted(f, g, KDescription, Str("")) && Defaulted(f, g, KSceneRef, Null)
    ensures Defaulted(f, g, KEncounterRef, Null) && Defaulted(f, g, KNpcRefs, Arr([]))
    ensures Defaulted(f, g, KChoiceMode, Str("parallel"))
    ensures (KId in f <==> KId in g) && (KId in f ==> g[KId] == f[KId])
    ensures (KType in f <==> KType in g) && (KType in f ==> g[KType] == f[KType])
    ensures KTransitions in f ==> KTransitions in g
    ensures KTransitions in g && KTransitions !in f ==> g[KTransitions] == Arr([])
    ensures KOnComplete in f ==> KOnComplete in g
    ensures KOnComplete in g && KOnComplete !in f ==> g[KOnComplete] == Arr([])
  {
    hide SpeltOut, NodeDefaults, Defaulted;
    NodeDefaultsAre(schema);
    var ds, inner := NodeDefaults(schema), {KTransitions, KOnComplete};
    Spelt(f, g, ds, inner, KVisibility);
    Spelt(f, g, ds, inner, KChapterId);
    Spelt(f, g, ds, inner, KOptional);
    Spelt(f, g, ds, inner, KName);
    Spelt(f, g, ds, inner, KDescription);
    Spelt(f, g, ds, inner, KSceneRef);
    Spelt(f, g, ds, inner, KEncounterRef);
    Spelt(f, g, ds, inner, KNpcRefs);
    Spelt(f, g, ds, inner, KChoiceMode);
    Spelt(f, g, ds, inner, KId);
    Spelt(f, g, ds, inner, KType);
    Spelt(f, g, ds, inner, KTransitions);
    Spelt(f, g, ds, inner, KOnComplete);
    if schema != 2 { UnchangedIsDefaulted(f, g, KChoiceMode, Str("parallel")); }
  }

  lemma NodeKeysSame(f: Fields, g: Fields, schema: int)
    requires SpeltOut(f, g, NodeDefaults(schema), {KTransitions, KOnComplete})
    ensures f.Keys <= NodeFields(schema) <==> g.Keys <= NodeFields(schema)
  {}

  lemma NodeSame(a: Json, b: Json, schema: int, n: Node, show: Show)
    requires FullerNode(a, b, schema)
    ensures NodeIs(a, schema, n, show) <==> NodeIs(b, schema, n, show)
  {
    hide Names, FieldSays, VisibilityIs, ModeIs, TransitionsAre, OutcomesAre, RefIs, RefsAre, SpeltOut, NodeDefaults,
         FullerTransitions, FullerOutcomes, NodeFields;
    if a != b {
      var f, g := a.fields, b.fields;
      NodeDefaulted(f, g, schema);
      NodeKeysSame(f, g, schema);
      NodeKeys(f, schema);
      NodeKeys(g, schema);
      FieldSaysSame(f, g, KName, n.name, show);
      FieldSaysSame(f, g, KDescription, n.description, show);
      VisibilitySame(f, g, n.visibility);
      ModeSame(f, g, n.exclusive);
      RefSame(f, g, KSceneRef, n.sceneRef, show);
      RefSame(f, g, KEncounterRef, n.encounterRef, show);
      RefsSame(f, g, n.npcRefs);
      TransitionsSame(f, g, n.exclusive, n.transitions, show);
      OutcomesSame(f, g, n.onComplete, show);
    }
  }

  lemma NodesSame(f: Fields, g: Fields, schema: int, ns: seq<Node>, show: Show)
    requires KNodes in f ==> KNodes in g && FullerNodes(f[KNodes], g[KNodes], schema)
    requires KNodes in g && KNodes !in f ==> g[KNodes] == Arr([])
    ensures NodesAre(f, schema, ns, show) <==> NodesAre(g, schema, ns, show)
  {
    hide NodeIs, FullerNode;
    if KNodes in f && f[KNodes].Arr? && g[KNodes].Arr? {
      var v, w := f[KNodes].items, g[KNodes].items;
      forall i | 0 <= i < |v| && i < |ns| && v != w
        ensures NodeIs(v[i], schema, ns[i], show) <==> NodeIs(w[i], schema, ns[i], show)
      {
        NodeSame(v[i], w[i], schema, ns[i], show);
      }
    }
  }

  lemma ChapterSame(a: Json, b: Json, c: Chapter, show: Show)
    requires FullerRecord(a, b, CHAPTER_DEFAULTS)
    ensures ChapterIs(a, c, show) <==> ChapterIs(b, c, show)
  {
    hide Names, FieldSays, VisibilityIs, SpeltOut, Defaulted;
    if a != b {
      var f, g := a.fields, b.fields;
      assert CHAPTER_DEFAULTS[KName] == Str("") && CHAPTER_DEFAULTS[KVisibility] == Str("public");
      Spelt(f, g, CHAPTER_DEFAULTS, {}, KName);
      Spelt(f, g, CHAPTER_DEFAULTS, {}, KVisibility);
      Spelt(f, g, CHAPTER_DEFAULTS, {}, KId);
      FieldSaysSame(f, g, KName, c.name, show);
      VisibilitySame(f, g, c.visibility);
    }
  }

  lemma ChaptersSame(f: Fields, g: Fields, cs: seq<Chapter>, show: Show)
    requires KChapters in f ==> KChapters in g && FullerRecords(f[KChapters], g[KChapters], CHAPTER_DEFAULTS)
    requires KChapters in g && KChapters !in f ==> g[KChapters] == Arr([])
    ensures ChaptersAre(f, cs, show) <==> ChaptersAre(g, cs, show)
  {
    hide ChapterIs, FullerRecord;
    if KChapters in f && f[KChapters].Arr? && g[KChapters].Arr? {
      var v, w := f[KChapters].items, g[KChapters].items;
      forall i | 0 <= i < |v| && i < |cs| && v != w
        ensures ChapterIs(v[i], cs[i], show) <==> ChapterIs(w[i], cs[i], show)
      {
        ChapterSame(v[i], w[i], cs[i], show);
      }
    }
  }

  lemma GoalSame(a: Json, b: Json, o: Goal, show: Show)
    requires FullerRecord(a, b, GOAL_DEFAULTS)
    ensures GoalIs(a, o, show) <==> GoalIs(b, o, show)
  {
    hide Names, FieldSays, VisibilityIs, IdsAre, SpeltOut, Defaulted;
    if a != b {
      var f, g := a.fields, b.fields;
      assert GOAL_DEFAULTS[KName] == Str("") && GOAL_DEFAULTS[KVisibility] == Str("public");
      assert GOAL_DEFAULTS[KNodeIds] == Arr([]);
      Spelt(f, g, GOAL_DEFAULTS, {}, KName);
      Spelt(f, g, GOAL_DEFAULTS, {}, KVisibility);
      Spelt(f, g, GOAL_DEFAULTS, {}, KNodeIds);
      Spelt(f, g, GOAL_DEFAULTS, {}, KId);
      FieldSaysSame(f, g, KName, o.name, show);
      VisibilitySame(f, g, o.visibility);
      IdsSame(f, g, KNodeIds, o.nodeIds, show);
    }
  }

  lemma GoalsSame(f: Fields, g: Fields, k: Key, gs: seq<Goal>, show: Show)
    requires k in f ==> k in g && FullerRecords(f[k], g[k], GOAL_DEFAULTS)
    requires k in g && k !in f ==> g[k] == Arr([])
    ensures GoalsAre(f, k, gs, show) <==> GoalsAre(g, k, gs, show)
  {
    hide GoalIs, FullerRecord;
    if k in f && f[k].Arr? && g[k].Arr? {
      var v, w := f[k].items, g[k].items;
      forall i | 0 <= i < |v| && i < |gs| && v != w ensures GoalIs(v[i], gs[i], show) <==> GoalIs(w[i], gs[i], show) {
        GoalSame(v[i], w[i], gs[i], show);
      }
    }
  }

  lemma SeedsSame(f: Fields, g: Fields, k: Key, seeds: seq<Fields>, bound: nat)
    requires Defaulted(f, g, k, Arr([]))
    ensures SeedsAre(f, k, seeds, bound) <==> SeedsAre(g, k, seeds, bound)
  {}

  lemma KeysSame(f: Fields, g: Fields, defaults: Fields, inner: set<Key>, ks: set<Key>)
    requires SpeltOut(f, g, defaults, inner) && defaults.Keys <= ks
    ensures OnlyHas(f, ks) <==> OnlyHas(g, ks)
  {}

  lemma SeedRecordSame(f: Fields, g: Fields, s: Seed)
    requires KWorldSeed in f ==> KWorldSeed in g && FullerRecord(f[KWorldSeed], g[KWorldSeed], SEED_DEFAULTS)
    requires KWorldSeed in g && KWorldSeed !in f ==> g[KWorldSeed] == Null
    ensures SeedIs(f, s) <==> SeedIs(g, s)
  {
    hide SeedsAre, OnlyHas, EntitySeedIs, RelationSeedIs, FactSeedIs, ProcessSeedIs, SpeltOut, Defaulted;
    if KWorldSeed in f && f[KWorldSeed] != g[KWorldSeed] {
      var v, w := f[KWorldSeed].fields, g[KWorldSeed].fields;
      var ks: set<Key> := {KEntities, KRelations, KFacts, KProcesses};
      assert SEED_DEFAULTS.Keys == ks && forall k :: k in ks ==> SEED_DEFAULTS[k] == Arr([]);
      KeysSame(v, w, SEED_DEFAULTS, {}, ks);
      forall k | k in ks ensures Defaulted(v, w, k, Arr([])) { Spelt(v, w, SEED_DEFAULTS, {}, k); }
      SeedsSame(v, w, KEntities, s.entities, 128);
      SeedsSame(v, w, KRelations, s.relations, 128);
      SeedsSame(v, w, KFacts, s.facts, 128);
      SeedsSame(v, w, KProcesses, s.processes, 32);
    }
  }

  lemma GraphDefaulted(f: Fields, g: Fields)
    requires SpeltOut(f, g, GRAPH_DEFAULTS, GRAPH_INNER)
    ensures Defaulted(f, g, KVisibility, Str("public")) && Defaulted(f, g, KSchemaVersion, Int(1))
    ensures Defaulted(f, g, KStartNodeIds, Arr([]))
    ensures (KId in f <==> KId in g) && (KId in f ==> g[KId] == f[KId])
    ensures forall k :: k in {KChapters, KNodes, KObjectives, KMilestones} ==>
              (k in f ==> k in g) && (k in g && k !in f ==> g[k] == Arr([]))
    ensures (KWorldSeed in f ==> KWorldSeed in g) && (KWorldSeed in g && KWorldSeed !in f ==> g[KWorldSeed] == Null)
  {
    hide SpeltOut, Defaulted;
    var ds := GRAPH_DEFAULTS;
    assert ds[KVisibility] == Str("public") && ds[KSchemaVersion] == Int(1) && ds[KWorldSeed] == Null;
    assert ds[KStartNodeIds] == ds[KChapters] == ds[KNodes] == ds[KObjectives] == ds[KMilestones] == Arr([]);
    Spelt(f, g, ds, GRAPH_INNER, KVisibility);
    Spelt(f, g, ds, GRAPH_INNER, KSchemaVersion);
    Spelt(f, g, ds, GRAPH_INNER, KStartNodeIds);
    Spelt(f, g, ds, GRAPH_INNER, KId);
    Spelt(f, g, ds, GRAPH_INNER, KWorldSeed);
    forall k | k in {KChapters, KNodes, KObjectives, KMilestones}
      ensures (k in f ==> k in g) && (k in g && k !in f ==> g[k] == Arr([]))
    {
      Spelt(f, g, ds, GRAPH_INNER, k);
    }
  }

  lemma SchemaSame(f: Fields, g: Fields, schema: int)
    requires Defaulted(f, g, KSchemaVersion, Int(1))
    ensures (if KSchemaVersion in f then f[KSchemaVersion] == Int(schema) else schema == 1)
      <==> (if KSchemaVersion in g then g[KSchemaVersion] == Int(schema) else schema == 1)
  {}

  lemma GraphKeysSame(f: Fields, g: Fields)
    requires SpeltOut(f, g, GRAPH_DEFAULTS, GRAPH_INNER)
    ensures f.Keys <= GRAPH_FIELDS <==> g.Keys <= GRAPH_FIELDS
  {
    KeysSame(f, g, GRAPH_DEFAULTS, GRAPH_INNER, GRAPH_FIELDS);
    KeysIff(f, GRAPH_FIELDS);
    KeysIff(g, GRAPH_FIELDS);
  }

  lemma RecordSame(a: Json, b: Json, graph: Graph, show: Show)
    requires Fuller(a, b) && graph.schema in {1, 2}
    ensures RecordIs(a.fields, graph, show) <==> RecordIs(b.fields, graph, show)
  {
    hide OnlyHas, Names, VisibilityIs, ChaptersAre, NodesAre, IdsAre, GoalsAre, SeedIs, SpeltOut, Defaulted,
         FullerRecords, FullerRecord, FullerNodes, GRAPH_FIELDS;
    var f, g := a.fields, b.fields;
    GraphDefaulted(f, g);
    GraphKeysSame(f, g);
    GraphKeys(f);
    GraphKeys(g);
    SchemaSame(f, g, graph.schema);
    VisibilitySame(f, g, graph.visibility);
    ChaptersSame(f, g, graph.chapters, show);
    IdsSame(f, g, KStartNodeIds, graph.starts, show);
    GoalsSame(f, g, KObjectives, graph.objectives, show);
    GoalsSame(f, g, KMilestones, graph.milestones, show);
    SeedRecordSame(f, g, graph.seed);
    if if KSchemaVersion in f then f[KSchemaVersion] == Int(graph.schema) else graph.schema == 1 {
      NodesSame(f, g, graph.schema, graph.nodes, show);
    }
  }

  lemma FullerRecordsAreObjects(a: Json, b: Json)
    requires Fuller(a, b)
    ensures a.Obj? && b.Obj?
  {
    hide SpeltOut, FullerNodes, FullerRecords, FullerRecord;
  }

  lemma SchemaOk(g: Graph)
    ensures WellFormed(g) ==> g.schema in {1, 2}
  {
    hide NodeOk, GoalsOk, SeedOk, StartsOk, TargetsExist, Distinct;
  }

  /** A record and the same record with any of its defaults written out, at any depth, validate to the same graph, or
      neither does. */
  lemma DefaultsMayBeOmitted(a: Json, b: Json, show: Show)
    requires Fuller(a, b)
    ensures Validated(a, show) == Validated(b, show)
  {
    hide Fuller, RecordIs, WellFormed, Validated;
    forall graph ensures Validated(a, show) == Some(graph) <==> Validated(b, show) == Some(graph) {
      AcceptedIff(a, graph, show);
      AcceptedIff(b, graph, show);
      FullerRecordsAreObjects(a, b);
      if graph.schema in {1, 2} { RecordSame(a, b, graph, show); } else { SchemaOk(graph); }
    }
    if Validated(a, show).Some? { assert Validated(b, show) == Some(Validated(a, show).value); }
  }
}
